/**
 Replaying an Unzen block: its whole body must execute, a body that runs past the block's zk-gas
 limit is refused, and the zk gas it uses must be the block's difficulty.
 */
module UnzenReplay {
  import opened Wrappers
  import opened Execution
  import opened TxFilter

  datatype ReplayError =
    | BlobTransaction(index: nat)
    | NotApplicable(index: nat)
    | RequestsFailed
    | PastTruncation(body: nat, committed: nat)
    | DifficultyMismatch
    | WitnessFailed

  /** committed: receipts produced before the loop ended. */
  datatype Run = Run(committed: nat, final: Pools, witnessError: bool)

  /** The replay loop as a function, from body position i on. */
  function Loop(env: Env, s: Pools, txs: seq<Tx>, i: nat, witnessError: bool): Result<Run, ReplayError>
    decreases |txs|
  {
    if txs == [] then Ok(Run(i, s, witnessError))
    else
      var asAnchor := i == 0 && env.taiko;
      if (asAnchor && !env.canMarkAnchor(txs[0])) || env.message(txs[0], asAnchor).Some? then Err(NotApplicable(i))
      else
        var a := env.apply(s, txs[0], asAnchor, i);
        var failed := witnessError || a.witnessError;
        var fits := env.zkFits(s.blockZk, a.txZk);
        if a.fault.Some? then
          if a.fault.value.ZkGasLimit? && i > 0 then Ok(Run(i, Pools(a.world, a.gas, s.blockZk), failed))
          else Err(NotApplicable(i))
        else if !fits && i > 0 then Ok(Run(i, Pools(a.world, a.gas, s.blockZk), failed))
        else Loop(env, Pools(a.world, a.gas, if fits then s.blockZk + a.txZk else s.blockZk), txs[1..], i + 1, failed)
  }

  /** requestsOk stands for the execution requests taken from the logs after the loop. */
  function Replay(env: Env, s: Pools, body: seq<Tx>, witnessError: bool, requestsOk: bool,
                  difficulty: Option<nat>): Result<Pools, ReplayError>
  {
    if FirstBlob(env, body, 0).Some? then Err(BlobTransaction(FirstBlob(env, body, 0).value))
    else
      match Loop(env, s, body, 0, witnessError)
      case Err(e) => Err(e)
      case Ok(run) =>
        if !requestsOk then Err(RequestsFailed)
        else if run.committed != |body| then Err(PastTruncation(|body|, run.committed))
        else if difficulty != Some(run.final.blockZk) then Err(DifficultyMismatch)
        else if run.witnessError then Err(WitnessFailed)
        else Ok(run.final)
  }

  function FirstBlob(env: Env, txs: seq<Tx>, i: nat): Option<nat>
    decreases |txs|
  {
    if txs == [] then None
    else if env.isBlob(txs[0]) then Some(i)
    else FirstBlob(env, txs[1..], i + 1)
  }

  method FindBlob(env: Env, body: seq<Tx>) returns (found: Option<nat>)
    ensures found == FirstBlob(env, body, 0)
  {
    assert body[0..] == body;
    for i := 0 to |body|
      invariant FirstBlob(env, body, 0) == FirstBlob(env, body[i..], i)
    {
      assert body[i..][1..] == body[i + 1..];
      if env.isBlob(body[i]) {
        return Some(i);
      }
    }
    return None;
  }

  datatype Turn = Advanced | Truncated | Refused

  /** One turn of the loop; unlike the filter, it does not undo a transaction that overflows. */
  method ReplayTransaction(x: BlockExecution, tx: Tx, i: nat, ghost rest: seq<Tx>) returns (turn: Turn)
    modifies x
    ensures var before := Loop(x.env, old(x.Current()), [tx] + rest, i, old(x.witnessError));
            match turn
            case Advanced => before == Loop(x.env, x.Current(), rest, i + 1, x.witnessError)
            case Truncated => before == Ok(Run(i, x.Current(), x.witnessError))
            case Refused => before == Err(NotApplicable(i))
  {
    assert ([tx] + rest)[1..] == rest;
    var env := x.env;
    if i == 0 && env.taiko && !env.canMarkAnchor(tx) {
      return Refused;
    }
    if env.message(tx, i == 0 && env.taiko).Some? {
      return Refused;
    }
    x.ResetTransaction();
    var fault, _ := x.ApplyTransaction(tx, i == 0 && env.taiko, i);
    if fault.Some? {
      if fault.value.ZkGasLimit? && i > 0 {
        x.ResetTransaction();
        return Truncated;
      }
      return Refused;
    }
    var fits := x.CommitTransaction();
    if !fits && i > 0 {
      x.ResetTransaction();
      return Truncated;
    }
    return Advanced;
  }

  method ReplayBody(x: BlockExecution, body: seq<Tx>) returns (r: Result<nat, ReplayError>)
    modifies x
    ensures match Loop(x.env, old(x.Current()), body, 0, old(x.witnessError)) {
              case Ok(run) => r == Ok(run.committed) && x.Current() == run.final && x.witnessError == run.witnessError
              case Err(e) => r == Err(e)
            }
  {
    ghost var goal := Loop(x.env, x.Current(), body, 0, x.witnessError);
    var i := 0;
    assert body[0..] == body;
    while i < |body|
      invariant 0 <= i <= |body|
      invariant goal == Loop(x.env, x.Current(), body[i..], i, x.witnessError)
    {
      assert body[i..] == [body[i]] + body[i + 1..];
      var turn := ReplayTransaction(x, body[i], i, body[i + 1..]);
      match turn {
        case Refused => return Err(NotApplicable(i));
        case Truncated => return Ok(i);
        case Advanced =>
      }
      i := i + 1;
    }
    return Ok(i);
  }

  method ReplayUnzenBlock(x: BlockExecution, body: seq<Tx>, requestsOk: bool, difficulty: Option<nat>)
    returns (r: Result<Pools, ReplayError>)
    modifies x
    ensures r == Replay(x.env, old(x.Current()), body, old(x.witnessError), requestsOk, difficulty)
  {
    var blob := FindBlob(x.env, body);
    if blob.Some? {
      return Err(BlobTransaction(blob.value));
    }
    var committed := ReplayBody(x, body);
    if committed.Err? {
      return Err(committed.error);
    }
    if !requestsOk {
      return Err(RequestsFailed);
    }
    if |body| != committed.value {
      return Err(PastTruncation(|body|, committed.value));
    }
    if difficulty != Some(x.blockZk) {
      return Err(DifficultyMismatch);
    }
    if x.witnessError {
      return Err(WitnessFailed);
    }
    return Ok(Pools(x.world, x.gas, x.blockZk));
  }

  // ---------- The filter and the replay agree ----------

  lemma {:induction false} WitnessErrorStays(env: Env, s: Pools, txs: seq<Tx>, i: nat)
    requires Loop(env, s, txs, i, true).Ok?
    ensures Loop(env, s, txs, i, true).value.witnessError
    decreases |txs|
  {
    if txs != [] {
      var a := env.apply(s, txs[0], i == 0 && env.taiko, i);
      var fits := env.zkFits(s.blockZk, a.txZk);
      if a.fault.None? && (fits || i == 0) {
        WitnessErrorStays(env, Pools(a.world, a.gas, if fits then s.blockZk + a.txZk else s.blockZk), txs[1..], i + 1);
      }
    }
  }

  ghost predicate CommitsAll(r: Result<Run, ReplayError>, end: nat, final: Pools) {
    r == Ok(Run(end, final, false))
  }

  lemma {:induction false} GreedyShortens(env: Env, s: Pools, txs: seq<Tx>, index: nat, position: nat)
    requires Greedy(env, s, txs, index, position).Ok?
    ensures |Greedy(env, s, txs, index, position).value.kept| <= |txs|
    decreases |txs|
  {
    if txs != [] {
      match Attempt(env, s, txs[0], index == 0, position) {
        case Cut =>
        case Skip => GreedyShortens(env, s, txs[1..], index + 1, position);
        case Keep(next) => GreedyShortens(env, next, txs[1..], index + 1, position + 1);
      }
    }
  }

  /** Past the anchor: the filter keeps the whole list exactly when the loop commits all of it. */
  lemma {:induction false} TailAgreement(env: Env, s: Pools, txs: seq<Tx>, i: nat, final: Pools)
    requires env.unzen && i > 0
    ensures Greedy(env, s, txs, i, i) == Ok(Outcome(txs, final, false)) <==>
            CommitsAll(Loop(env, s, txs, i, false), i + |txs|, final)
    decreases |txs|
  {
    if txs != [] {
      var tx, rest := txs[0], txs[1..];
      var a := env.apply(s, tx, false, i);
      match Attempt(env, s, tx, false, i) {
        case Keep(next) =>
          TailAgreement(env, next, rest, i + 1, final);
          var tail := Greedy(env, next, rest, i + 1, i + 1);
          assert txs == [tx] + rest;
          assert tail.Ok? ==> ([tx] + tail.value.kept == txs <==> tail.value.kept == rest) by {
            assert ([tx] + rest)[1..] == rest;
            if tail.Ok? { assert ([tx] + tail.value.kept)[1..] == tail.value.kept; }
          }
        case Skip =>
          if Greedy(env, s, rest, i + 1, i).Ok? {
            GreedyShortens(env, s, rest, i + 1, i);
          }
        case Cut =>
        case Abort =>
          if env.message(tx, false).None? && a.witnessError && a.fault.None? && env.zkFits(s.blockZk, a.txZk) {
            var next := Pools(a.world, a.gas, s.blockZk + a.txZk);
            if Loop(env, next, rest, i + 1, true).Ok? {
              WitnessErrorStays(env, next, rest, i + 1);
            }
          }
      }
    }
  }

  /** What the filter demands of the anchor and the replay does not check itself. */
  ghost predicate AnchorSound(env: Env, s: Pools, anchor: Tx) {
    var a := env.apply(s, anchor, true, 0);
    a.receiptOk && env.zkFits(s.blockZk, a.txZk)
  }

  /**
   The filter returns a candidate list unchanged exactly when the replay loop commits every
   transaction of it, without witness error, in the same pools; the loop alone says nothing
   about the anchor's receipt and zk gas, so these appear as a condition on its side.
   */
  lemma FilterAgreesWithReplay(env: Env, s: Pools, body: seq<Tx>, final: Pools)
    requires env.unzen && env.taiko && body != []
    ensures Filter(env, s, body, false) == Ok(Outcome(body, final, false)) <==>
            CommitsAll(Loop(env, s, body, 0, false), |body|, final) && AnchorSound(env, s, body[0])
  {
    var anchor, rest := body[0], body[1..];
    var a := env.apply(s, anchor, true, 0);
    match Attempt(env, s, anchor, true, 0) {
      case Keep(next) =>
        TailAgreement(env, next, rest, 1, final);
        var tail := Greedy(env, next, rest, 1, 1);
        assert body == [anchor] + rest;
        if tail.Ok? {
          assert ([anchor] + tail.value.kept)[1..] == tail.value.kept;
        }
      case Abort =>
        if env.canMarkAnchor(anchor) && env.message(anchor, true).None? && a.witnessError && a.fault.None?
           && env.zkFits(s.blockZk, a.txZk) {
          var next := Pools(a.world, a.gas, s.blockZk + a.txZk);
          if Loop(env, next, rest, 1, true).Ok? {
            WitnessErrorStays(env, next, rest, 1);
          }
        }
    }
  }

  /** Transactions that only use zk gas, of which a block can take up to a limit. */
  function IdleEnv(receiptOk: bool, txZk: nat, limit: nat): Env {
    Env(true, true, _ => false, _ => true, _ => true, (_, _) => None,
        (s: Pools, _, _, _) => Applied(s.world, s.gas, txZk, None, false, receiptOk), (used, more) => used + more <= limit)
  }

  /** The condition is needed, both parts of it: a body that replays in full and that the filter refuses. */
  lemma UnsoundAnchorReplays(anchor: Tx, s: Pools, receiptOk: bool, txZk: nat, limit: nat)
    requires !receiptOk || s.blockZk + txZk > limit
    ensures var final := s.(blockZk := if s.blockZk + txZk <= limit then s.blockZk + txZk else s.blockZk);
            CommitsAll(Loop(IdleEnv(receiptOk, txZk, limit), s, [anchor], 0, false), 1, final)
    ensures Filter(IdleEnv(receiptOk, txZk, limit), s, [anchor], false) == Err(CandidateFailed(0))
  {
    var env := IdleEnv(receiptOk, txZk, limit);
    var final := s.(blockZk := if s.blockZk + txZk <= limit then s.blockZk + txZk else s.blockZk);
    assert [anchor][1..] == [];
    assert Loop(env, final, [], 1, false) == Ok(Run(1, final, false));
    assert Attempt(env, s, anchor, true, 0) == Abort;
  }

  lemma {:induction false} NoBlobNoFind(env: Env, txs: seq<Tx>, i: nat)
    requires forall tx :: tx in txs ==> !env.isBlob(tx)
    ensures FirstBlob(env, txs, i) == None
  {
    if txs != [] {
      NoBlobNoFind(env, txs[1..], i + 1);
    }
  }

  /**
   The two checks together.  A block whose header commits to its body and to the filter's
   output for the same anchor always replays in full: it is never cut short, and it is accepted
   exactly when its difficulty is the zk gas the filter counted.
   */
  lemma BoundBlockReplays(env: Env, s: Pools, body: seq<Tx>, manifestTxs: seq<Tx>, root: seq<Tx> -> nat,
                          txRoot: nat, difficulty: Option<nat>)
    requires env.unzen && env.taiko && body != [] && !env.isBlob(body[0])
    requires forall a, b :: root(a) == root(b) ==> a == b
    requires root(body) == txRoot
    requires var filtered := Filter(env, s, [body[0]] + Eligible(env, manifestTxs), false);
             filtered.Ok? && root(filtered.value.kept) == txRoot
    ensures var final := Filter(env, s, [body[0]] + Eligible(env, manifestTxs), false).value.final;
            Replay(env, s, body, false, true, difficulty) ==
            if difficulty == Some(final.blockZk) then Ok(final) else Err(DifficultyMismatch)
  {
    var candidates := [body[0]] + Eligible(env, manifestTxs);
    var o := Filter(env, s, candidates, false).value;
    assert o.kept == body;
    FilterIdempotent(env, s, body[0], manifestTxs);
    FilterAgreesWithReplay(env, s, body, o.final);
    GreedyKeepsCandidates(env, s, candidates, 0, 0);
    EligibleOnlyKeepsEligible(env, manifestTxs);
    NoBlobNoFind(env, body, 0);
  }
}
