/**
 What an accepted replay is, said of the execution environment alone: one successful step for every
 transaction of the body, from the start pools to the final ones.
 */
module ReplayMeaning {
  import opened Wrappers
  import opened Execution
  import opened UnzenReplay

  /** One transaction at position i of the body takes the pools from one state to the next. */
  ghost predicate StepOk(env: Env, before: Pools, tx: Tx, i: nat, after: Pools) {
    var asAnchor := i == 0 && env.taiko;
    var a := env.apply(before, tx, asAnchor, i);
    var fits := env.zkFits(before.blockZk, a.txZk);
    && (asAnchor ==> env.canMarkAnchor(tx))
    && env.message(tx, asAnchor) == None
    && a.fault == None && !a.witnessError
    && (i > 0 ==> fits)
    && after == Pools(a.world, a.gas, if fits then before.blockZk + a.txZk else before.blockZk)
  }

  ghost predicate StepAt(env: Env, pools: seq<Pools>, txs: seq<Tx>, i: nat, k: nat)
    requires k < |txs| && |pools| == |txs| + 1
  {
    StepOk(env, pools[k], txs[k], i + k, pools[k + 1])
  }

  /** pools leads from s to final through all of txs, which start at position i of the body. */
  ghost predicate Trace(env: Env, pools: seq<Pools>, s: Pools, txs: seq<Tx>, i: nat, final: Pools) {
    && |pools| == |txs| + 1
    && pools[0] == s && pools[|txs|] == final
    && forall k: nat :: k < |txs| ==> StepAt(env, pools, txs, i, k)
  }

  lemma TraceCons(env: Env, s: Pools, next: Pools, tx: Tx, rest: seq<Pools>, txs: seq<Tx>, i: nat, final: Pools)
    requires StepOk(env, s, tx, i, next) && Trace(env, rest, next, txs, i + 1, final)
    ensures Trace(env, [s] + rest, s, [tx] + txs, i, final)
  {
    var pools, all := [s] + rest, [tx] + txs;
    forall k: nat | k < |all| ensures StepAt(env, pools, all, i, k) {
      if k > 0 {
        assert StepAt(env, rest, txs, i + 1, k - 1);
      }
    }
  }

  lemma TraceTail(env: Env, pools: seq<Pools>, s: Pools, txs: seq<Tx>, i: nat, final: Pools)
    requires txs != [] && Trace(env, pools, s, txs, i, final)
    ensures StepOk(env, s, txs[0], i, pools[1]) && Trace(env, pools[1..], pools[1], txs[1..], i + 1, final)
  {
    assert StepAt(env, pools, txs, i, 0);
    var tail, rest, next := pools[1..], txs[1..], i + 1;
    forall k: nat | k < |rest| ensures StepAt(env, tail, rest, next, k) {
      assert StepAt(env, pools, txs, i, k + 1);
    }
  }

  lemma {:induction false} LoopTraces(env: Env, s: Pools, txs: seq<Tx>, i: nat, final: Pools) returns (pools: seq<Pools>)
    requires CommitsAll(Loop(env, s, txs, i, false), i + |txs|, final)
    ensures Trace(env, pools, s, txs, i, final)
    decreases |txs|
  {
    if txs == [] {
      pools := [s];
    } else {
      var a := env.apply(s, txs[0], i == 0 && env.taiko, i);
      var fits := env.zkFits(s.blockZk, a.txZk);
      var next := Pools(a.world, a.gas, if fits then s.blockZk + a.txZk else s.blockZk);
      if a.witnessError {
        WitnessErrorStays(env, next, txs[1..], i + 1);
      }
      var rest := LoopTraces(env, next, txs[1..], i + 1, final);
      TraceCons(env, s, next, txs[0], rest, txs[1..], i, final);
      pools := [s] + rest;
      assert [txs[0]] + txs[1..] == txs;
    }
  }

  lemma {:induction false} TraceLoops(env: Env, pools: seq<Pools>, s: Pools, txs: seq<Tx>, i: nat, final: Pools)
    requires Trace(env, pools, s, txs, i, final)
    ensures CommitsAll(Loop(env, s, txs, i, false), i + |txs|, final)
    decreases |txs|
  {
    if txs != [] {
      TraceTail(env, pools, s, txs, i, final);
      TraceLoops(env, pools[1..], pools[1], txs[1..], i + 1, final);
    }
  }

  lemma {:induction false} BlobFree(env: Env, txs: seq<Tx>, i: nat)
    ensures FirstBlob(env, txs, i) == None <==> forall tx :: tx in txs ==> !env.isBlob(tx)
  {
    if txs != [] {
      BlobFree(env, txs[1..], i + 1);
      assert txs == [txs[0]] + txs[1..];
    }
  }

  ghost predicate Leads(env: Env, s: Pools, body: seq<Tx>, final: Pools) {
    exists pools :: Trace(env, pools, s, body, 0, final)
  }

  /**
   A body is accepted, with these final pools, exactly when it holds no blob transaction, every one of
   its transactions takes a successful step in turn, the witness never failed, the requests are right,
   and the difficulty is the zk gas that the final pools count.
   */
  lemma ReplayAccepts(env: Env, s: Pools, body: seq<Tx>, witnessError: bool, requestsOk: bool, difficulty: Option<nat>,
                      final: Pools)
    ensures Replay(env, s, body, witnessError, requestsOk, difficulty) == Ok(final) <==>
            && (forall tx :: tx in body ==> !env.isBlob(tx))
            && Leads(env, s, body, final)
            && !witnessError && requestsOk && difficulty == Some(final.blockZk)
  {
    BlobFree(env, body, 0);
    if Replay(env, s, body, witnessError, requestsOk, difficulty) == Ok(final) {
      if witnessError {
        WitnessErrorStays(env, s, body, 0);
      }
      var pools := LoopTraces(env, s, body, 0, final);
    }
    if Leads(env, s, body, final) {
      var pools :| Trace(env, pools, s, body, 0, final);
      TraceLoops(env, pools, s, body, 0, final);
    }
  }

  /** A transaction that runs out of zk gas, while executing or when its use is added to the block's. */
  ghost predicate RunsOut(env: Env, s: Pools, tx: Tx, i: nat) {
    var a := env.apply(s, tx, i == 0 && env.taiko, i);
    && env.message(tx, i == 0 && env.taiko) == None
    && (a.fault == Some(ZkGasLimit) || (a.fault == None && !env.zkFits(s.blockZk, a.txZk)))
  }

  lemma {:induction false} LoopTruncates(env: Env, pools: seq<Pools>, s: Pools, txs: seq<Tx>, i: nat, at: Pools, tx: Tx,
                                         more: seq<Tx>)
    requires Trace(env, pools, s, txs, i, at) && RunsOut(env, at, tx, i + |txs|) && i + |txs| > 0
    ensures Loop(env, s, txs + [tx] + more, i, false).Ok?
    ensures Loop(env, s, txs + [tx] + more, i, false).value.committed == i + |txs|
    decreases |txs|
  {
    if txs == [] {
      assert txs + [tx] + more == [tx] + more;
    } else {
      TraceTail(env, pools, s, txs, i, at);
      assert (txs + [tx] + more)[1..] == txs[1..] + [tx] + more;
      LoopTruncates(env, pools[1..], pools[1], txs[1..], i + 1, at, tx, more);
    }
  }

  /** A body that goes on past the transaction that runs out of zk gas, or only ends with it, is refused as such. */
  lemma PastTruncationRefused(env: Env, s: Pools, front: seq<Tx>, at: Pools, tx: Tx, more: seq<Tx>, difficulty: Option<nat>)
    requires front != [] && Leads(env, s, front, at) && RunsOut(env, at, tx, |front|)
    requires forall t :: t in front + [tx] + more ==> !env.isBlob(t)
    ensures var body := front + [tx] + more;
            Replay(env, s, body, false, true, difficulty) == Err(PastTruncation(|body|, |front|))
  {
    BlobFree(env, front + [tx] + more, 0);
    var pools :| Trace(env, pools, s, front, 0, at);
    LoopTruncates(env, pools, s, front, 0, at, tx, more);
  }
}
