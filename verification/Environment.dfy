/**
 What the prover calls and this model does not open: hashing, decoding, the EVM, the chain tables,
 header rules of single forks, and reads of the parent L2 state.  Each is a function.
 */
module Environment {
  import opened Wrappers
  import opened Words
  import opened Headers
  import BlobCodec
  import Carries
  import Derivation
  import Execution

  /** One undecoded replay block; the undecoded Taiko part of a guest input, and its other part. */
  type RawBlock(==, !new)
  type Taiko(==, !new)
  type ProposalAncestors(==, !new)

  /** The state nodes and codes of a witness. */
  type WitnessState(==, !new)

  datatype Block = Block(header: Header, transactions: seq<Execution.Tx>, uncles: seq<Header>)

  datatype Replay = Replay(block: Block, ancestors: seq<Header>, state: WitnessState)

  datatype Log = Log(address: Carries.Address, topics: seq<Word>, dataLength: nat, word0: Word, word1: Word)

  datatype Receipt = Receipt(succeeded: bool, logs: seq<Log>)

  datatype ExecResult = ExecResult(stateRoot: Word, receiptsRoot: Word, receipts: seq<Receipt>)

  /** The witness state of a block after its system calls, ready for its transactions. */
  datatype Start = Start(env: Execution.Env, pools: Execution.Pools, witnessError: bool)

  datatype SourceHead = SourceHead(forced: bool, hasBlobs: bool, offset: u64)

  /** A decoded guest input: the proposal, its sources' data, and the headers it is bound to. */
  datatype GuestInput = GuestInput(
    chainId: u64,
    proposalId: u64,
    proposal: Derivation.Proposal,
    originHash: Word,
    basefeeSharing: nat,
    heads: seq<SourceHead>,
    dataSources: seq<seq<seq<BlobCodec.byte>>>,
    parent: Header,
    grandparent: Option<Header>,
    l1Header: Header,
    l1Ancestors: seq<Header>)

  datatype Machine = Machine(
    hashOf: HeaderHash,
    hash: seq<Word> -> Word,
    txRoot: seq<Execution.Tx> -> Word,
    decode: RawBlock -> Option<Replay>,
    guestInput: (Taiko, seq<RawBlock>, ProposalAncestors) -> Option<GuestInput>,
    lastAnchor: Taiko -> Option<u64>,
    parentCheckpoint: (Taiko, seq<RawBlock>, u64) -> Option<Checkpoint>,
    carryRestOk: (Carries.Carry, seq<RawBlock>, Taiko) -> bool,
    derivationConfig: (u64, u64) -> Option<(u64, nat)>,
    parse: (seq<BlobCodec.byte>, u64) -> Option<Derivation.Manifest>,
    headerRulesOk: (u64, Header, Header, Option<Header>) -> bool,
    extraData: (nat, u64) -> Word,
    mixHash: (Header, u64) -> Word,
    start: (u64, Replay) -> Option<Start>,
    anchorCheckpoint: (u64, Execution.Tx, Header) -> Option<Checkpoint>,
    bodyRestOk: Block -> bool,
    unzen: (u64, u64) -> bool,
    requestsOk: (u64, Replay) -> bool,
    settle: (u64, Replay, Execution.Pools) -> Option<ExecResult>,
    executeOther: (u64, Replay) -> Option<ExecResult>,
    knownChain: u64 -> bool,
    anchorAddress: u64 -> Option<Carries.Address>,
    anchoredTopic: Word)

  predicate SameRoot(root: seq<Execution.Tx> -> Word, a: seq<Execution.Tx>, b: seq<Execution.Tx>) {
    root(a) == root(b)
  }

  ghost predicate InjectiveRoot(root: seq<Execution.Tx> -> Word) {
    forall a, b :: SameRoot(root, a, b) ==> a == b
  }
}
