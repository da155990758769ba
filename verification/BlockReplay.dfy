/**
 Executing one block on its witness: an Unzen block through the replay loop on the state that its
 witness opens, any other block through the library's processor.
 */
module BlockReplay {
  import opened Wrappers
  import opened Words
  import opened Environment
  import Execution
  import UnzenReplay

  /** Execution does not see the roots that the header claims. */
  function Stripped(r: Replay): Replay {
    r.(block := r.block.(header := r.block.header.(root := 0, receiptsRoot := 0)))
  }

  /** The context of the transactions does not see the difficulty either. */
  function Opened(r: Replay): Replay {
    r.(block := r.block.(header := r.block.header.(root := 0, receiptsRoot := 0, difficulty := 0)))
  }

  predicate IsUnzen(r: Replay, chainId: u64, m: Machine) {
    m.unzen(chainId, r.block.header.time)
  }

  /** The state that the witness opens; the filter and the replay both start there. */
  function StartOf(r: Replay, chainId: u64, m: Machine): Option<Start> {
    match m.start(chainId, Opened(r))
    case None => None
    case Some(start) => Some(start.(env := start.env.(unzen := IsUnzen(r, chainId, m), taiko := true)))
  }

  /** The replay of an Unzen block's body, against the difficulty that its header claims. */
  function UnzenOutcome(r: Replay, chainId: u64, start: Start, m: Machine)
    : Result<Execution.Pools, UnzenReplay.ReplayError>
  {
    UnzenReplay.Replay(start.env, start.pools, r.block.transactions, start.witnessError, m.requestsOk(chainId, r),
                       Some(r.block.header.difficulty))
  }

  function Executed(r: Replay, chainId: u64, m: Machine): Option<ExecResult> {
    if !IsUnzen(r, chainId, m) then m.executeOther(chainId, r)
    else
      match StartOf(r, chainId, m)
      case None => None
      case Some(start) =>
        match UnzenOutcome(r, chainId, start, m)
        case Err(_) => None
        case Ok(final) => m.settle(chainId, r, final)
  }

  method Execute(r: Replay, chainId: u64, m: Machine) returns (result: Option<ExecResult>)
    ensures result == Executed(r, chainId, m)
  {
    if !IsUnzen(r, chainId, m) {
      return m.executeOther(chainId, r);
    }
    match StartOf(r, chainId, m)
    case None => return None;
    case Some(start) =>
      var x := new Execution.BlockExecution(start.env, start.pools, start.witnessError);
      var outcome := UnzenReplay.ReplayUnzenBlock(x, r.block.transactions, m.requestsOk(chainId, r),
                                                  Some(r.block.header.difficulty));
      match outcome
      case Err(_) => return None;
      case Ok(final) => return m.settle(chainId, r, final);
  }
}
