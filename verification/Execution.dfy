/**
 Executing transactions on a block in progress.  What the EVM library does to one transaction
 is a parameter of the model: any deterministic function of the pools, the transaction, its
 position and whether it runs as the anchor.
 */
module Execution {
  import opened Wrappers

  type Tx(==, !new)
  type World(!new)

  /** How an execution error is classified by the tx-list filter. */
  datatype Fault = ZkGasLimit | Skippable | Fatal

  /** What a block in progress has used up: its state, its gas pool and its zk gas. */
  datatype Pools = Pools(world: World, gas: nat, blockZk: nat)

  /** The effect of one call, failed or not; a failed one may leave any world and gas behind. */
  datatype Applied = Applied(world: World, gas: nat, txZk: nat, fault: Option<Fault>,
                             witnessError: bool, receiptOk: bool)

  datatype Env = Env(
    unzen: bool,
    taiko: bool,
    isBlob: Tx -> bool,
    hasSender: Tx -> bool,
    canMarkAnchor: Tx -> bool,
    message: (Tx, bool) -> Option<Fault>,
    apply: (Pools, Tx, bool, nat) -> Applied,
    zkFits: (nat, nat) -> bool)

  /** The mutable parts of a block in progress: state database, gas pool and zk gas meter. */
  class BlockExecution {
    const env: Env
    var world: World
    var gas: nat
    var blockZk: nat
    var txZk: nat
    var witnessError: bool

    ghost function Current(): Pools
      reads this
    {
      Pools(world, gas, blockZk)
    }

    constructor (env: Env, start: Pools, witnessError: bool)
      ensures this.env == env && Current() == start
      ensures this.witnessError == witnessError
    {
      this.env := env;
      this.world, this.gas, this.blockZk, this.txZk := start.world, start.gas, start.blockZk, 0;
      this.witnessError := witnessError;
    }

    /** Starts a transaction on the meter; what the block has used stays. */
    method ResetTransaction()
      modifies `txZk
      ensures txZk == 0
    {
      txZk := 0;
    }

    /** Moves the transaction's zk gas to the block, if the block can take it. */
    method CommitTransaction() returns (ok: bool)
      modifies `blockZk, `txZk
      ensures ok == env.zkFits(old(blockZk), old(txZk))
      ensures blockZk == if ok then old(blockZk) + old(txZk) else old(blockZk)
    {
      ok := env.zkFits(blockZk, txZk);
      if ok {
        blockZk, txZk := blockZk + txZk, 0;
      }
    }

    /** The state database keeps its first witness error for good. */
    method ApplyTransaction(tx: Tx, asAnchor: bool, position: nat) returns (fault: Option<Fault>, receiptOk: bool)
      modifies `world, `gas, `txZk, `witnessError
      ensures var a := env.apply(old(Current()), tx, asAnchor, position);
              && world == a.world && gas == a.gas && txZk == a.txZk
              && fault == a.fault && receiptOk == a.receiptOk
              && witnessError == (old(witnessError) || a.witnessError)
    {
      var a := env.apply(Pools(world, gas, blockZk), tx, asAnchor, position);
      world, gas, txZk := a.world, a.gas, a.txZk;
      witnessError := witnessError || a.witnessError;
      return a.fault, a.receiptOk;
    }

    /** Undoes a candidate: the state snapshot and the copied gas pool come back. */
    method RevertCandidate(worldSnapshot: World, gasSnapshot: nat)
      modifies `world, `gas
      ensures world == worldSnapshot && gas == gasSnapshot
    {
      world, gas := worldSnapshot, gasSnapshot;
    }
  }
}
