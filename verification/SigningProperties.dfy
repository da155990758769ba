/** What holds over every run of the signing service. */
module SigningProperties {
  import opened Wrappers
  import opened Words
  import opened Headers
  import opened Carries
  import opened Hashing
  import opened Witness
  import opened BlockReplay
  import opened Environment
  import opened Requests
  import opened SigningService
  import opened RequestMeaning
  import ManifestBinding

  // ---------- Runs ----------

  lemma RunLegalAt(h: seq<Event>, m: Machine, i: nat)
    requires Run(h, m) && i < |h|
    ensures Run(h[..i], m) && Legal(h[..i], h[i], m)
  {
    hide ManifestBinding.GuestInputOk;
    assert LegalAt(h, i, m);
    forall j: nat | j < i ensures LegalAt(h[..i], j, m) {
      assert LegalAt(h, j, m) && h[..i][..j] == h[..j];
    }
  }

  /** Every issued signature was left behind by some event. */
  lemma {:induction false} IssuedBy(h: seq<Event>, hash: Hash, s: Signed) returns (j: nat)
    requires s in Issued(h, hash)
    ensures j < |h| && SignatureOf(h[j], hash) == Some(s)
  {
    var last := |h| - 1;
    if SignatureOf(h[last], hash) == Some(s) {
      j := last;
    } else {
      j := IssuedBy(h[..last], hash, s);
    }
  }

  /** Every event's signature stays issued. */
  lemma {:induction false} StaysIssued(h: seq<Event>, hash: Hash, j: nat, s: Signed)
    requires j < |h| && SignatureOf(h[j], hash) == Some(s)
    ensures s in Issued(h, hash)
  {
    if j < |h| - 1 {
      StaysIssued(h[..|h| - 1], hash, j, s);
    }
  }

  /** Event j of h is an accepted Prove, by the instance, of the carry. */
  ghost predicate ProvedAt(h: seq<Event>, j: nat, instance: Address, carry: Carry) {
    j < |h| && h[j].Proved? && h[j].instance == instance && h[j].content.carry == carry
  }

  /** A subproof signature over a carry of proper width can only stem from proving that carry. */
  lemma SubproofSignatureMeansProved(h: seq<Event>, m: Machine, carry: Carry, instance: Address) returns (j: nat)
    requires Ideal(m.hash) && Run(h, m) && FitsWidths(carry)
    requires Signed(instance, SubproofHash(carry, m.hash)) in Issued(h, m.hash)
    ensures ProvedAt(h, j, instance, carry)
    ensures Accepted(h[j].content, m) && ProveOk(h[j].content, m)
  {
    hide ManifestBinding.GuestInputOk;
    var s := Signed(instance, SubproofHash(carry, m.hash));
    j := IssuedBy(h, m.hash, s);
    RunLegalAt(h, m, j);
    match h[j]
    case Proved(_, content) =>
      SubproofHashInjective(content.carry, carry, m.hash);
    case Aggregated(_, _, proofs) =>
      SubproofIsNoAggregate(carry, CarriesOf(proofs), instance, m.hash);
  }

  /**
   Over every run: each carry inside a signed aggregate was itself signed, earlier, by an accepted
   Prove of the same instance.
   */
  lemma AggregatedCarriesWereProved(h: seq<Event>, m: Machine, i: nat, k: nat) returns (j: nat)
    requires Ideal(m.hash) && Run(h, m)
    requires i < |h| && h[i].Aggregated? && k < |h[i].proofs|
    ensures j < i && ProvedAt(h, j, h[i].instance, h[i].proofs[k].carry)
    ensures Accepted(h[j].content, m) && ProveOk(h[j].content, m)
  {
    hide ManifestBinding.GuestInputOk;
    RunLegalAt(h, m, i);
    var proof := h[i].proofs[k];
    assert ProofOk(proof, h[i].instanceId, h[i].instance, Issued(h[..i], m.hash), m.hash);
    assert CarriesOf(h[i].proofs)[k] == proof.carry;
    j := SubproofSignatureMeansProved(h[..i], m, proof.carry, h[i].instance);
  }

  function OwnProof(carry: Carry, instanceId: nat, instance: Address, hash: Hash): AggregateProof {
    var inputHash := SubproofHash(carry, hash);
    AggregateProof(inputHash, instanceId, instance, Signed(instance, inputHash), carry)
  }

  function OwnProofs(carries: seq<Carry>, instanceId: nat, instance: Address, hash: Hash): (p: seq<AggregateProof>)
    ensures |p| == |carries|
    ensures forall k :: 0 <= k < |p| ==> p[k] == OwnProof(carries[k], instanceId, instance, hash)
    ensures CarriesOf(p) == carries
  {
    seq(|carries|, k requires 0 <= k < |carries| => OwnProof(carries[k], instanceId, instance, hash))
  }

  ghost predicate ProvedBefore(h: seq<Event>, instance: Address, carry: Carry) {
    exists j :: ProvedAt(h, j, instance, carry)
  }

  lemma OwnProofMeaning(h: seq<Event>, m: Machine, carry: Carry, instance: Address)
    requires Ideal(m.hash) && Run(h, m) && FitsWidths(carry)
    ensures Signed(instance, SubproofHash(carry, m.hash)) in Issued(h, m.hash) <==> ProvedBefore(h, instance, carry)
  {
    hide ManifestBinding.GuestInputOk;
    var s := Signed(instance, SubproofHash(carry, m.hash));
    if s in Issued(h, m.hash) {
      var j := SubproofSignatureMeansProved(h, m, carry, instance);
    }
    if ProvedBefore(h, instance, carry) {
      var j :| ProvedAt(h, j, instance, carry);
      StaysIssued(h, m.hash, j, s);
    }
  }

  /**
   And back: after any run, an instance can aggregate exactly the well-formed lists of carries that
   it proved in that run.
   */
  lemma AggregatableMeaning(h: seq<Event>, m: Machine, carries: seq<Carry>, instanceId: nat, instance: Address)
    requires Ideal(m.hash) && Run(h, m)
    ensures Legal(h, Aggregated(instance, instanceId, OwnProofs(carries, instanceId, instance, m.hash)), m) <==>
            CarriesOk(carries) && forall k :: 0 <= k < |carries| ==> ProvedBefore(h, instance, carries[k])
  {
    hide ManifestBinding.GuestInputOk;
    var proofs := OwnProofs(carries, instanceId, instance, m.hash);
    if CarriesOk(carries) {
      forall k | 0 <= k < |carries|
        ensures ProofOk(proofs[k], instanceId, instance, Issued(h, m.hash), m.hash)
                <==> ProvedBefore(h, instance, carries[k])
      {
        OwnProofMeaning(h, m, carries[k], instance);
      }
    }
  }

  // ---------- The blocks of one request ----------

  function HeadersOf(c: Content, m: Machine): (headers: seq<Header>)
    requires forall i :: 0 <= i < |c.raws| ==> m.decode(c.raws[i]).Some?
    ensures |headers| == |c.raws|
    ensures forall i :: 0 <= i < |c.raws| ==> headers[i] == m.decode(c.raws[i]).value.block.header
  {
    seq(|c.raws|, i requires 0 <= i < |c.raws| => m.decode(c.raws[i]).value.block.header)
  }

  /** The header's block was executed on the state of parent and gave the header's own roots. */
  ghost predicate ExecutedOn(parent: Header, header: Header, chainId: u64, m: Machine) {
    exists replay, result :: ReplayedAs(replay, result, parent, header, chainId, m)
  }

  ghost predicate ReplayedAs(replay: Replay, result: ExecResult, parent: Header, header: Header, chainId: u64, m: Machine) {
    && replay.block.header == header
    && Witnessed(header, replay.ancestors, m.hashOf)
    && replay.ancestors[0] == parent
    && m.txRoot(replay.block.transactions) == header.txRoot && m.bodyRestOk(replay.block)
    && ExecutesTo(replay.(block := replay.block.(header := header.(root := 0, receiptsRoot := 0))), chainId, m, result)
    && result.stateRoot == header.root && result.receiptsRoot == header.receiptsRoot
  }

  /** Block i of a proved request: not the genesis block, executed on the header that its hash names. */
  lemma BlockExecuted(c: Content, m: Machine, i: nat) returns (parent: Header)
    requires ProveOk(c, m) && i < |c.raws|
    ensures m.decode(c.raws[i]).Some?
    ensures var header := m.decode(c.raws[i]).value.block.header;
            && m.hashOf(parent) == header.parentHash
            && parent.number + 1 == header.number
            && ExecutedOn(parent, header, c.carry.chainId, m)
            && c.views[i] == ViewOf(header, m.hashOf)
  {
    hide Executed, ExecutesTo, AnchorContinues;
    assert BlockOk(m, c.carry.chainId, c.raws[i], c.views[i]);
    var replay := m.decode(c.raws[i]).value;
    var result := BlockResult(c, m, i);
    ParentNumberExact(replay.block.header, replay.ancestors, m.hashOf);
    parent := replay.ancestors[0];
    assert ReplayedAs(replay, result, parent, replay.block.header, c.carry.chainId, m);
  }

  ghost predicate Decodes(c: Content, m: Machine) {
    forall i :: 0 <= i < |c.raws| ==> m.decode(c.raws[i]).Some?
  }

  /** older's child in number and hash, executed on older's state. */
  ghost predicate Extends(older: Header, newer: Header, chainId: u64, m: Machine) {
    && newer.number == older.number + 1
    && newer.parentHash == m.hashOf(older)
    && ExecutedOn(older, newer, chainId, m)
  }

  ghost predicate ExtendsAt(headers: seq<Header>, i: nat, chainId: u64, m: Machine)
    requires 0 < i < |headers|
  {
    Extends(headers[i - 1], headers[i], chainId, m)
  }

  ghost predicate OneChain(headers: seq<Header>, chainId: u64, m: Machine) {
    forall i: nat :: 0 < i < |headers| ==> ExtendsAt(headers, i, chainId, m)
  }

  /** A block whose parent hash is older's hash extends older. */
  lemma HashNamesParent(c: Content, m: Machine, i: nat, older: Header)
    requires Injective(m.hashOf) && ProveOk(c, m) && Decodes(c, m) && i < |c.raws|
    requires HeadersOf(c, m)[i].parentHash == m.hashOf(older)
    ensures Extends(older, HeadersOf(c, m)[i], c.carry.chainId, m)
  {
    hide Executed, BlockOk;
    var parent := BlockExecuted(c, m, i);
    assert SameHash(m.hashOf, parent, older);
  }

  function CheckpointOf(h: Header, m: Machine): Checkpoint {
    Checkpoint(h.number, m.hashOf(h), h.root)
  }

  ghost predicate HasParent(header: Header, chainId: u64, m: Machine) {
    exists parent :: Extends(parent, header, chainId, m)
  }

  /** One chain of blocks, from the parent block of the first carry to the checkpoint of the last. */
  ghost predicate Spans(headers: seq<Header>, first: Carry, last: Carry, m: Machine) {
    && headers != []
    && HasParent(headers[0], first.chainId, m)
    && OneChain(headers, first.chainId, m)
    && headers[0].parentHash == first.input.parentBlockHash
    && CheckpointOf(headers[|headers| - 1], m) == last.input.checkpoint
  }

  lemma RequestDecodes(c: Content, m: Machine)
    requires ProveOk(c, m)
    ensures Decodes(c, m)
    ensures forall i :: 0 <= i < |c.views| ==> c.views[i] == ViewOf(HeadersOf(c, m)[i], m.hashOf)
  {
    forall i | 0 <= i < |c.raws| ensures m.decode(c.raws[i]).Some? {
      assert BlockOk(m, c.carry.chainId, c.raws[i], c.views[i]);
    }
    forall i | 0 <= i < |c.views| ensures c.views[i] == ViewOf(HeadersOf(c, m)[i], m.hashOf) {
      assert BlockOk(m, c.carry.chainId, c.raws[i], c.views[i]);
    }
  }

  lemma FirstHasParent(c: Content, m: Machine)
    requires Injective(m.hashOf) && ProveOk(c, m) && Decodes(c, m)
    ensures |c.raws| > 0 && HasParent(HeadersOf(c, m)[0], c.carry.chainId, m)
  {
    hide Executed, BlockOk;
    var parent := BlockExecuted(c, m, 0);
    assert Extends(parent, HeadersOf(c, m)[0], c.carry.chainId, m);
  }

  lemma ViewsAreOneChain(c: Content, m: Machine)
    requires Injective(m.hashOf) && ProveOk(c, m) && Decodes(c, m)
    ensures OneChain(HeadersOf(c, m), c.carry.chainId, m)
  {
    hide Executed, BlockOk, Extends;
    RequestDecodes(c, m);
    var headers := HeadersOf(c, m);
    forall i: nat | 0 < i < |headers| ensures ExtendsAt(headers, i, c.carry.chainId, m) {
      assert ViewAfter(c.views, i);
      HashNamesParent(c, m, i, headers[i - 1]);
    }
  }

  /** The blocks of one proved request are one chain from the carry's parent block to its checkpoint. */
  lemma RequestIsOneChain(c: Content, m: Machine)
    requires Injective(m.hashOf) && ProveOk(c, m)
    ensures Decodes(c, m) && Spans(HeadersOf(c, m), c.carry, c.carry, m)
  {
    hide BlockOk, OneChain, HasParent;
    RequestDecodes(c, m);
    FirstHasParent(c, m);
    ViewsAreOneChain(c, m);
  }

  // ---------- The blocks of a list of proved requests ----------

  ghost predicate AllProved(contents: seq<Content>, m: Machine) {
    forall k :: 0 <= k < |contents| ==> Decodes(contents[k], m) && ProveOk(contents[k], m)
  }

  ghost function AllHeaders(contents: seq<Content>, m: Machine): seq<Header>
    requires AllProved(contents, m)
  {
    if contents == [] then []
    else AllHeaders(contents[..|contents| - 1], m) + HeadersOf(contents[|contents| - 1], m)
  }

  function CarriesIn(contents: seq<Content>): (c: seq<Carry>)
    ensures |c| == |contents|
    ensures forall k :: 0 <= k < |contents| ==> c[k] == contents[k].carry
  {
    seq(|contents|, k requires 0 <= k < |contents| => contents[k].carry)
  }

  lemma JoinChains(a: seq<Header>, b: seq<Header>, chainId: u64, m: Machine)
    requires OneChain(a, chainId, m) && OneChain(b, chainId, m)
    requires a != [] && b != [] && Extends(a[|a| - 1], b[0], chainId, m)
    ensures OneChain(a + b, chainId, m)
  {
    var all := a + b;
    forall i: nat | 0 < i < |all| ensures ExtendsAt(all, i, chainId, m) {
      if i < |a| {
        assert ExtendsAt(a, i, chainId, m);
      } else if i > |a| {
        assert ExtendsAt(b, i - |a|, chainId, m);
      }
    }
  }

  lemma CarriesPrefix(carries: seq<Carry>, n: nat)
    requires CarriesOk(carries) && 0 < n <= |carries|
    ensures CarriesOk(carries[..n])
  {
    forall i | 0 < i < n ensures Continues(carries[..n][i - 1], carries[..n][i]) {
      assert Continues(carries[i - 1], carries[i]);
    }
  }

  /** A proved request continues the chain of the carries that its own carry continues. */
  lemma AppendRequest(front: seq<Header>, first: Carry, previous: Carry, c: Content, m: Machine)
    requires Injective(m.hashOf) && ProveOk(c, m) && Decodes(c, m)
    requires Spans(front, first, previous, m) && Continues(previous, c.carry) && first.chainId == c.carry.chainId
    ensures Spans(front + HeadersOf(c, m), first, c.carry, m)
  {
    hide Executed, BlockOk, OneChain, HasParent;
    RequestIsOneChain(c, m);
    HashNamesParent(c, m, 0, front[|front| - 1]);
    JoinChains(front, HeadersOf(c, m), first.chainId, m);
  }

  /**
   The blocks of an accepted list of carries, each from an accepted Prove, are one chain: hashes and
   numbers link across proposals, from the first parent hash to the last checkpoint.
   */
  lemma {:induction false} ProposalsAreOneChain(contents: seq<Content>, m: Machine)
    requires Injective(m.hashOf) && AllProved(contents, m) && CarriesOk(CarriesIn(contents))
    ensures Spans(AllHeaders(contents, m), contents[0].carry, contents[|contents| - 1].carry, m)
  {
    hide ProveOk, OneChain, FitsWidths;
    var n := |contents| - 1;
    var carries, before := CarriesIn(contents), contents[..n];
    if n == 0 {
      RequestIsOneChain(contents[0], m);
      assert before == [];
      assert AllHeaders(contents, m) == [] + HeadersOf(contents[0], m) == HeadersOf(contents[0], m);
    } else {
      assert CarriesIn(before) == carries[..n];
      CarriesPrefix(carries, n);
      ProposalsAreOneChain(before, m);
      assert Continues(carries[n - 1], carries[n]);
      ConsecutiveIds(carries, n);
      AppendRequest(AllHeaders(before, m), contents[0].carry, contents[n - 1].carry, contents[n], m);
    }
  }

  lemma {:induction false} ChainNumbers(headers: seq<Header>, chainId: u64, m: Machine, i: nat)
    requires OneChain(headers, chainId, m) && i < |headers|
    ensures headers[i].number == headers[0].number + i
  {
    if i > 0 {
      ChainNumbers(headers, chainId, m, i - 1);
      assert ExtendsAt(headers, i, chainId, m);
    }
  }

  // ---------- What a signed aggregate stands for ----------

  ghost predicate Backs(content: Content, h: seq<Event>, i: nat, k: nat, m: Machine)
    requires i < |h| && h[i].Aggregated? && k < |h[i].proofs|
  {
    && content.carry == h[i].proofs[k].carry
    && Decodes(content, m) && ProveOk(content, m)
    && Proved(h[i].instance, content) in h[..i]
  }

  /** Whatever a run proved had been accepted by validation. */
  lemma ProvedWasAccepted(h: seq<Event>, m: Machine, i: nat, instance: Address, content: Content)
    requires Run(h, m) && i <= |h| && Proved(instance, content) in h[..i]
    ensures Accepted(content, m)
  {
    hide ManifestBinding.GuestInputOk;
    var j :| 0 <= j < i && h[..i][j] == Proved(instance, content);
    RunLegalAt(h, m, j);
  }

  lemma ProvedContent(h: seq<Event>, m: Machine, i: nat, k: nat) returns (content: Content)
    requires Ideal(m.hash) && Injective(m.hashOf) && Run(h, m)
    requires i < |h| && h[i].Aggregated? && k < |h[i].proofs|
    ensures Backs(content, h, i, k, m)
  {
    hide ManifestBinding.GuestInputOk;
    var j := AggregatedCarriesWereProved(h, m, i, k);
    content := h[j].content;
    RequestIsOneChain(content, m);
    assert h[..i][j] == Proved(h[i].instance, content);
  }

  lemma {:induction false} ProvedContents(h: seq<Event>, m: Machine, i: nat, n: nat) returns (contents: seq<Content>)
    requires Ideal(m.hash) && Injective(m.hashOf) && Run(h, m)
    requires i < |h| && h[i].Aggregated? && n <= |h[i].proofs|
    ensures |contents| == n
    ensures forall k :: 0 <= k < n ==> Backs(contents[k], h, i, k, m)
  {
    hide ManifestBinding.GuestInputOk;
    contents := [];
    if n > 0 {
      var front := ProvedContents(h, m, i, n - 1);
      var last := ProvedContent(h, m, i, n - 1);
      contents := front + [last];
    }
  }

  /** The requests and the chain that a commitment describes, from end to end. */
  ghost predicate Describes(c: Commitment, contents: seq<Content>, headers: seq<Header>) {
    && headers != [] && contents != []
    && c.firstProposalId == contents[0].carry.input.proposalId
    && c.firstParentBlockHash == headers[0].parentHash
    && c.lastProposalHash == contents[|contents| - 1].carry.input.proposalHash
    && c.endBlockNumber == headers[|headers| - 1].number
    && c.endStateRoot == headers[|headers| - 1].root
    && c.actualProver == contents[0].carry.input.actualProver
    && |c.steps| == |contents|
  }

  /** Transition k of the commitment is that of request k, and names the last block of the first k + 1 requests. */
  ghost predicate StepNames(contents: seq<Content>, headers: seq<Header>, k: nat, m: Machine)
    requires k < |contents| && AllProved(contents, m)
  {
    var upTo := AllHeaders(contents[..k + 1], m);
    var step, carry := CommitmentOf(CarriesIn(contents)).steps[k], contents[k].carry;
    && upTo != [] && upTo <= headers
    && step.blockHash == m.hashOf(upTo[|upTo| - 1])
    && step.proposer == carry.input.transition.proposer
    && step.timestamp == carry.input.transition.timestamp
  }

  lemma {:induction false} AllHeadersPrefix(contents: seq<Content>, n: nat, m: Machine)
    requires AllProved(contents, m) && n <= |contents|
    ensures AllHeaders(contents[..n], m) <= AllHeaders(contents, m)
  {
    hide ProveOk;
    if n < |contents| {
      var before := contents[..|contents| - 1];
      AllHeadersPrefix(before, n, m);
      assert before[..n] == contents[..n];
    } else {
      assert contents[..n] == contents;
    }
  }

  lemma StepNamesSegment(contents: seq<Content>, k: nat, m: Machine)
    requires Injective(m.hashOf) && AllProved(contents, m) && CarriesOk(CarriesIn(contents))
    requires k < |contents|
    ensures StepNames(contents, AllHeaders(contents, m), k, m)
  {
    var front := contents[..k + 1];
    assert CarriesIn(front) == CarriesIn(contents)[..k + 1];
    CarriesPrefix(CarriesIn(contents), k + 1);
    ProposalsAreOneChain(front, m);
    AllHeadersPrefix(contents, k + 1, m);
    assert CommitmentOf(CarriesIn(contents)).steps[k] == StepOf(contents[k].carry);
  }

  /** The blocks behind a list of requests, as the commitment to their carries describes them. */
  ghost predicate OneRun(contents: seq<Content>, headers: seq<Header>, m: Machine) {
    && contents != []
    && AllProved(contents, m) && headers == AllHeaders(contents, m)
    && OneChain(headers, contents[0].carry.chainId, m)
    && (forall k :: 0 <= k < |headers| ==> headers[k].number == headers[0].number + k)
    && Describes(CommitmentOf(CarriesIn(contents)), contents, headers)
    && RunOfProposals(CarriesIn(contents))
    && (forall k: nat :: k < |contents| ==> StepNames(contents, headers, k, m))
  }

  lemma ProvedListIsOneRun(contents: seq<Content>, m: Machine)
    requires Injective(m.hashOf) && AllProved(contents, m) && CarriesOk(CarriesIn(contents))
    ensures OneRun(contents, AllHeaders(contents, m), m)
  {
    hide ProveOk, FitsWidths, CarriesOk, RunOfProposals, OneChain, HasParent, StepNames, Decodes;
    ProposalsAreOneChain(contents, m);
    var headers, carries := AllHeaders(contents, m), CarriesIn(contents);
    forall k | 0 <= k < |headers| ensures headers[k].number == headers[0].number + k {
      ChainNumbers(headers, contents[0].carry.chainId, m, k);
    }
    CarriesMeaning(carries);
    forall k: nat | k < |contents| ensures StepNames(contents, headers, k, m) {
      StepNamesSegment(contents, k, m);
    }
    assert Describes(CommitmentOf(carries), contents, headers);
  }

  /**
   Over every run: behind each signed aggregate there is one chain of blocks, executed and proved
   by the same instance before, that runs exactly from where the signed commitment starts to where
   it ends; and its proposals are consecutive.
   */
  lemma SignedAggregateIsOneChain(h: seq<Event>, m: Machine, i: nat) returns (contents: seq<Content>, headers: seq<Header>)
    requires Ideal(m.hash) && Injective(m.hashOf) && Run(h, m)
    requires i < |h| && h[i].Aggregated?
    ensures CarriesIn(contents) == CarriesOf(h[i].proofs)
    ensures forall k :: 0 <= k < |contents| ==> Backs(contents[k], h, i, k, m)
    ensures OneRun(contents, headers, m)
  {
    hide ManifestBinding.GuestInputOk;
    contents := ProvedContents(h, m, i, |h[i].proofs|);
    ContentsCarries(contents, h, i, m);
    AggregateWasOk(h, m, i);
    ProvedListIsOneRun(contents, m);
    headers := AllHeaders(contents, m);
  }

  lemma AggregateWasOk(h: seq<Event>, m: Machine, i: nat)
    requires Run(h, m) && i < |h| && h[i].Aggregated?
    ensures CarriesOk(CarriesOf(h[i].proofs))
  {
    hide ManifestBinding.GuestInputOk;
    RunLegalAt(h, m, i);
  }

  lemma ContentsCarries(contents: seq<Content>, h: seq<Event>, i: nat, m: Machine)
    requires i < |h| && h[i].Aggregated? && |contents| == |h[i].proofs|
    requires forall k :: 0 <= k < |contents| ==> Backs(contents[k], h, i, k, m)
    ensures CarriesIn(contents) == CarriesOf(h[i].proofs) && AllProved(contents, m)
  {
  }

  // ---------- One aggregate hash, one chain ----------

  lemma {:induction false} ChainsAgreeFromTheEnd(a: seq<Header>, b: seq<Header>, chainA: u64, chainB: u64, m: Machine, back: nat)
    requires Injective(m.hashOf) && OneChain(a, chainA, m) && OneChain(b, chainB, m)
    requires back < |a| && back < |b|
    requires m.hashOf(a[|a| - 1]) == m.hashOf(b[|b| - 1])
    ensures a[|a| - 1 - back] == b[|b| - 1 - back]
  {
    assert SameHash(m.hashOf, a[|a| - 1 - back], b[|b| - 1 - back]) by {
      if back > 0 {
        ChainsAgreeFromTheEnd(a, b, chainA, chainB, m, back - 1);
        assert ExtendsAt(a, |a| - back, chainA, m) && ExtendsAt(b, |b| - back, chainB, m);
      }
    }
  }

  /** A chain cannot pass through its own first parent: block numbers only grow. */
  lemma NotLonger(a: seq<Header>, b: seq<Header>, chainA: u64, chainB: u64, m: Machine)
    requires Injective(m.hashOf) && OneChain(a, chainA, m) && OneChain(b, chainB, m)
    requires a != [] && b != [] && HasParent(a[0], chainA, m)
    requires m.hashOf(a[|a| - 1]) == m.hashOf(b[|b| - 1]) && a[0].parentHash == b[0].parentHash
    ensures |a| <= |b|
  {
    if |a| > |b| {
      var d := |a| - |b|;
      ChainsAgreeFromTheEnd(a, b, chainA, chainB, m, |b| - 1);
      assert a[d] == b[0] && ExtendsAt(a, d, chainA, m);
      var parent :| Extends(parent, a[0], chainA, m);
      assert SameHash(m.hashOf, parent, a[d - 1]);
      ChainNumbers(a, chainA, m, d - 1);
      assert false;
    }
  }

  lemma SpansDetermined(a: seq<Header>, b: seq<Header>, firstA: Carry, lastA: Carry, firstB: Carry, lastB: Carry, m: Machine)
    requires Injective(m.hashOf) && Spans(a, firstA, lastA, m) && Spans(b, firstB, lastB, m)
    requires firstA.input.parentBlockHash == firstB.input.parentBlockHash
    requires lastA.input.checkpoint.hash == lastB.input.checkpoint.hash
    ensures a == b
  {
    NotLonger(a, b, firstA.chainId, firstB.chainId, m);
    NotLonger(b, a, firstB.chainId, firstA.chainId, m);
    forall i | 0 <= i < |a| ensures a[i] == b[i] {
      ChainsAgreeFromTheEnd(a, b, firstA.chainId, firstB.chainId, m, |a| - 1 - i);
    }
  }

  /** The hash that an aggregate signs determines every block that was proved for it. */
  lemma AggregateHashDeterminesBlocks(a: seq<Content>, b: seq<Content>, instanceA: Address, instanceB: Address, m: Machine)
    requires Ideal(m.hash) && Injective(m.hashOf) && AllProved(a, m) && AllProved(b, m)
    requires CarriesOk(CarriesIn(a)) && CarriesOk(CarriesIn(b))
    requires AggregateHash(CarriesIn(a), instanceA, m.hash) == AggregateHash(CarriesIn(b), instanceB, m.hash)
    ensures AllHeaders(a, m) == AllHeaders(b, m)
  {
    AggregateHashCommits(CarriesIn(a), CarriesIn(b), instanceA, instanceB, m.hash);
    ProposalsAreOneChain(a, m);
    ProposalsAreOneChain(b, m);
    var last := |a| - 1;
    SpansDetermined(AllHeaders(a, m), AllHeaders(b, m), a[0].carry, a[last].carry, b[0].carry, b[last].carry, m);
  }

  // ---------- Anchor events ----------

  ghost function AnchorPair(c: Content, i: nat, m: Machine): (u64, u64)
    requires i < |c.raws|
  {
    var a := BlockAnchors(m, c.carry.chainId, c.raws[i]);
    if a.Some? then a.value else (0, 0)
  }

  /** In every accepted Prove the anchor events form one path that starts at the host's last anchor. */
  lemma AnchorEventsChain(c: Content, m: Machine)
    requires ProveOk(c, m) && c.guestInput.Some?
    ensures forall i :: 0 <= i < |c.raws| ==> BlockAnchors(m, c.carry.chainId, c.raws[i]).Some?
    ensures m.lastAnchor(c.guestInput.value) == Some(AnchorPair(c, 0, m).0)
    ensures forall i :: 0 < i < |c.raws| ==> AnchorPair(c, i, m).0 == AnchorPair(c, i - 1, m).1
  {
    assert AnchorContinues(c, 0, m);
    forall i | 0 <= i < |c.raws|
      ensures BlockAnchors(m, c.carry.chainId, c.raws[i]).Some?
      ensures i > 0 ==> AnchorContinues(c, i - 1, m) && AnchorPair(c, i, m).0 == AnchorPair(c, i - 1, m).1
    {
      assert AnchorContinues(c, i, m);
      if i > 0 {
        assert AnchorContinues(c, i - 1, m);
      }
    }
  }
}
