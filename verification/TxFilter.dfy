/**
 The manifest transaction filter: from the anchor and the transactions a proposal lists, the
 body a canonical block builder would have produced.
 */
module TxFilter {
  import opened Wrappers
  import opened Execution

  // ---------- The greedy specification ----------

  datatype Verdict = Keep(next: Pools) | Skip | Cut | Abort

  /** What happens to one candidate in a given state. */
  function Attempt(env: Env, s: Pools, tx: Tx, asAnchor: bool, position: nat): Verdict {
    if asAnchor && !env.canMarkAnchor(tx) then Abort
    else
      var rejected := env.message(tx, asAnchor);
      if rejected.Some? then (if asAnchor || rejected.value.Fatal? then Abort else Skip)
      else
        var a := env.apply(s, tx, asAnchor, position);
        if a.witnessError then Abort
        else if a.fault.Some? then
          if asAnchor || a.fault.value.Fatal? then Abort
          else if env.unzen && a.fault.value.ZkGasLimit? then Cut
          else Skip
        else if asAnchor && !a.receiptOk then Abort
        else if !env.unzen then Keep(Pools(a.world, a.gas, s.blockZk))
        else if env.zkFits(s.blockZk, a.txZk) then Keep(Pools(a.world, a.gas, s.blockZk + a.txZk))
        else if asAnchor then Abort
        else Cut
  }

  /** kept: the body so far; cut: a zk-gas overflow ended the block. */
  datatype Outcome = Outcome(kept: seq<Tx>, final: Pools, cut: bool)

  datatype FilterError = MissingAnchor | WitnessBeforeBody | CandidateFailed(index: nat)

  /** Greedy selection from candidate number index on, with position candidates kept so far. */
  function Greedy(env: Env, s: Pools, txs: seq<Tx>, index: nat, position: nat): Result<Outcome, FilterError>
    decreases |txs|
  {
    if txs == [] then Ok(Outcome([], s, false))
    else match Attempt(env, s, txs[0], index == 0, position) {
      case Abort => Err(CandidateFailed(index))
      case Cut => Ok(Outcome([], s, true))
      case Skip => Greedy(env, s, txs[1..], index + 1, position)
      case Keep(next) => Prepend(txs[0], Greedy(env, next, txs[1..], index + 1, position + 1))
    }
  }

  function Prepend(tx: Tx, r: Result<Outcome, FilterError>): Result<Outcome, FilterError> {
    match r
    case Ok(o) => Ok(o.(kept := [tx] + o.kept))
    case Err(e) => Err(e)
  }

  /** The whole filter, from the state that the system calls left. */
  function Filter(env: Env, s: Pools, candidates: seq<Tx>, witnessError: bool): Result<Outcome, FilterError> {
    if candidates == [] then Err(MissingAnchor)
    else if witnessError then Err(WitnessBeforeBody)
    else Greedy(env, s, candidates, 0, 0)
  }

  /** The candidates: the anchor, then every listed transaction that could be in a block at all. */
  function Eligible(env: Env, txs: seq<Tx>): seq<Tx> {
    if txs == [] then []
    else if !env.isBlob(txs[0]) && env.hasSender(txs[0]) then [txs[0]] + Eligible(env, txs[1..])
    else Eligible(env, txs[1..])
  }

  // ---------- The loops ----------

  lemma {:induction false} EligibleSnoc(env: Env, txs: seq<Tx>, tx: Tx)
    ensures Eligible(env, txs + [tx]) ==
            Eligible(env, txs) + if !env.isBlob(tx) && env.hasSender(tx) then [tx] else []
  {
    if txs == [] {
      assert [tx][1..] == [];
    } else {
      EligibleSnoc(env, txs[1..], tx);
      assert (txs + [tx])[1..] == txs[1..] + [tx];
    }
  }

  method CandidateTransactions(env: Env, anchor: Tx, manifestTxs: seq<Tx>) returns (candidates: seq<Tx>)
    ensures candidates == [anchor] + Eligible(env, manifestTxs)
  {
    candidates := [anchor];
    for i := 0 to |manifestTxs|
      invariant candidates == [anchor] + Eligible(env, manifestTxs[..i])
    {
      var tx := manifestTxs[i];
      EligibleSnoc(env, manifestTxs[..i], tx);
      assert manifestTxs[..i + 1] == manifestTxs[..i] + [tx];
      if env.isBlob(tx) {
        continue;
      }
      if !env.hasSender(tx) {
        continue;
      }
      candidates := candidates + [tx];
    }
    assert manifestTxs[..|manifestTxs|] == manifestTxs;
  }

  /** The outcome of a run that has kept some transactions and has the rest still to do. */
  ghost function Continued(kept: seq<Tx>, rest: Result<Outcome, FilterError>): Result<Outcome, FilterError> {
    match rest
    case Ok(o) => Ok(o.(kept := kept + o.kept))
    case Err(e) => Err(e)
  }

  lemma ContinuedPrepend(kept: seq<Tx>, tx: Tx, rest: Result<Outcome, FilterError>)
    ensures Continued(kept, Prepend(tx, rest)) == Continued(kept + [tx], rest)
  {
    if rest.Ok? {
      assert kept + ([tx] + rest.value.kept) == (kept + [tx]) + rest.value.kept;
    }
  }

  datatype Step = Committed | Skipped | Stopped | Failed

  /** One turn of the loop: a candidate that is not committed leaves the pools as they were. */
  method TryCandidate(x: BlockExecution, tx: Tx, index: nat, position: nat) returns (step: Step)
    requires !x.witnessError
    modifies x
    ensures match Attempt(x.env, old(x.Current()), tx, index == 0, position) {
              case Keep(next) => step == Committed && x.Current() == next && !x.witnessError
              case Skip => step == Skipped && x.Current() == old(x.Current()) && !x.witnessError
              case Cut => step == Stopped && x.Current() == old(x.Current()) && !x.witnessError
              case Abort => step == Failed
            }
  {
    var env := x.env;
    if index == 0 && !env.canMarkAnchor(tx) {
      return Failed;
    }
    var rejected := env.message(tx, index == 0);
    if rejected.Some? {
      return if index == 0 || rejected.value.Fatal? then Failed else Skipped;
    }
    if env.unzen {
      x.ResetTransaction();
    }
    var worldSnapshot, gasSnapshot := x.world, x.gas;
    var fault, receiptOk := x.ApplyTransaction(tx, index == 0, position);
    if x.witnessError {
      return Failed;
    }
    if fault.Some? {
      if index == 0 {
        return Failed;
      }
      x.RevertCandidate(worldSnapshot, gasSnapshot);
      if fault.value.Fatal? {
        return Failed;
      }
      if env.unzen && fault.value.ZkGasLimit? {
        x.ResetTransaction();
        return Stopped;
      }
      return Skipped;
    }
    if index == 0 && !receiptOk {
      return Failed;
    }
    if env.unzen {
      var fits := x.CommitTransaction();
      if !fits {
        if index == 0 {
          return Failed;
        }
        x.ResetTransaction();
        x.RevertCandidate(worldSnapshot, gasSnapshot);
        return Stopped;
      }
    }
    return Committed;
  }

  method CommitFiltered(x: BlockExecution, candidates: seq<Tx>) returns (r: Result<seq<Tx>, FilterError>)
    modifies x
    ensures match Filter(x.env, old(x.Current()), candidates, old(x.witnessError)) {
              case Ok(o) => r == Ok(o.kept) && x.Current() == o.final && !x.witnessError
              case Err(e) => r == Err(e)
            }
  {
    if candidates == [] {
      return Err(MissingAnchor);
    }
    if x.witnessError {
      return Err(WitnessBeforeBody);
    }
    ghost var goal := Greedy(x.env, x.Current(), candidates, 0, 0);
    var committed := [];
    var index := 0;
    assert candidates[0..] == candidates;
    assert goal.Ok? ==> [] + goal.value.kept == goal.value.kept;
    while index < |candidates|
      invariant 0 <= index <= |candidates| && !x.witnessError
      invariant goal == Continued(committed, Greedy(x.env, x.Current(), candidates[index..], index, |committed|))
    {
      ghost var rest := candidates[index + 1..];
      assert candidates[index..][1..] == rest;
      var tx := candidates[index];
      var step := TryCandidate(x, tx, index, |committed|);
      match step {
        case Failed =>
          return Err(CandidateFailed(index));
        case Stopped =>
          assert committed + [] == committed;
          return Ok(committed);
        case Skipped =>
        case Committed =>
          ContinuedPrepend(committed, tx, Greedy(x.env, x.Current(), rest, index + 1, |committed| + 1));
          committed := committed + [tx];
      }
      index := index + 1;
    }
    assert committed + [] == committed;
    return Ok(committed);
  }

  // ---------- What the filter guarantees ----------

  /** Executing a list with nothing skipped: every transaction must be kept. */
  ghost function RunAll(env: Env, s: Pools, txs: seq<Tx>, position: nat): Option<Pools>
    decreases |txs|
  {
    if txs == [] then Some(s)
    else match Attempt(env, s, txs[0], position == 0, position) {
      case Keep(next) => RunAll(env, next, txs[1..], position + 1)
      case _ => None
    }
  }

  /**
   Rejected candidates leave no trace: the pools at the end are those of executing the kept
   transactions alone, in order; and the filter would keep exactly them again.
   */
  lemma {:induction false} GreedyLeavesNoTrace(env: Env, s: Pools, txs: seq<Tx>, index: nat, position: nat)
    requires position <= index && (position == 0 ==> index == 0)
    requires Greedy(env, s, txs, index, position).Ok?
    ensures var o := Greedy(env, s, txs, index, position).value;
            && RunAll(env, s, o.kept, position) == Some(o.final)
            && Greedy(env, s, o.kept, position, position) == Ok(o.(cut := false))
    decreases |txs|
  {
    if txs != [] {
      var o := Greedy(env, s, txs, index, position).value;
      match Attempt(env, s, txs[0], index == 0, position) {
        case Cut =>
        case Skip =>
          GreedyLeavesNoTrace(env, s, txs[1..], index + 1, position);
        case Keep(next) =>
          GreedyLeavesNoTrace(env, next, txs[1..], index + 1, position + 1);
          var tail := Greedy(env, next, txs[1..], index + 1, position + 1).value;
          assert o.kept == [txs[0]] + tail.kept && o.kept[1..] == tail.kept;
      }
    }
  }

  lemma NoTrace(env: Env, s: Pools, candidates: seq<Tx>)
    requires Filter(env, s, candidates, false).Ok?
    ensures var o := Filter(env, s, candidates, false).value;
            && o.kept != [] && o.kept[0] == candidates[0]
            && RunAll(env, s, o.kept, 0) == Some(o.final)
  {
    GreedyLeavesNoTrace(env, s, candidates, 0, 0);
  }

  lemma {:induction false} EligibleOnlyKeepsEligible(env: Env, txs: seq<Tx>)
    ensures forall tx :: tx in Eligible(env, txs) ==> !env.isBlob(tx) && env.hasSender(tx)
  {
    if txs != [] {
      EligibleOnlyKeepsEligible(env, txs[1..]);
    }
  }

  lemma {:induction false} EligibleFixed(env: Env, txs: seq<Tx>)
    requires forall tx :: tx in txs ==> !env.isBlob(tx) && env.hasSender(tx)
    ensures Eligible(env, txs) == txs
  {
    if txs != [] {
      EligibleFixed(env, txs[1..]);
      assert txs == [txs[0]] + txs[1..];
    }
  }

  lemma {:induction false} GreedyKeepsCandidates(env: Env, s: Pools, txs: seq<Tx>, index: nat, position: nat)
    requires Greedy(env, s, txs, index, position).Ok?
    ensures forall tx :: tx in Greedy(env, s, txs, index, position).value.kept ==> tx in txs
    decreases |txs|
  {
    if txs != [] {
      match Attempt(env, s, txs[0], index == 0, position) {
        case Cut =>
        case Skip => GreedyKeepsCandidates(env, s, txs[1..], index + 1, position);
        case Keep(next) => GreedyKeepsCandidates(env, next, txs[1..], index + 1, position + 1);
      }
    }
  }

  /** Filtering the filter's own output, candidate selection included, changes nothing. */
  lemma FilterIdempotent(env: Env, s: Pools, anchor: Tx, manifestTxs: seq<Tx>)
    requires Filter(env, s, [anchor] + Eligible(env, manifestTxs), false).Ok?
    ensures var o := Filter(env, s, [anchor] + Eligible(env, manifestTxs), false).value;
            && o.kept != []
            && [o.kept[0]] + Eligible(env, o.kept[1..]) == o.kept
            && Filter(env, s, o.kept, false) == Ok(o.(cut := false))
  {
    var candidates := [anchor] + Eligible(env, manifestTxs);
    var rest := candidates[1..];
    assert rest == Eligible(env, manifestTxs);
    EligibleOnlyKeepsEligible(env, manifestTxs);
    NoTrace(env, s, candidates);
    GreedyLeavesNoTrace(env, s, candidates, 0, 0);
    var o := Filter(env, s, candidates, false).value;
    match Attempt(env, s, anchor, true, 0) {
      case Keep(next) =>
        GreedyKeepsCandidates(env, next, rest, 1, 1);
        assert o.kept[1..] == Greedy(env, next, rest, 1, 1).value.kept;
    }
    EligibleFixed(env, o.kept[1..]);
    assert [o.kept[0]] + o.kept[1..] == o.kept;
  }

  /**
   A run on a longer list is the run on its first part, then, unless a zk-gas overflow already
   ended the block, the run on the second part from where the first one stopped.
   */
  lemma {:induction false} GreedyAppend(env: Env, s: Pools, a: seq<Tx>, b: seq<Tx>, index: nat, position: nat)
    ensures var whole, first := Greedy(env, s, a + b, index, position), Greedy(env, s, a, index, position);
            && (first.Err? ==> whole == first)
            && (first.Ok? && first.value.cut ==> whole == first)
            && (first.Ok? && !first.value.cut ==>
                  var o := first.value;
                  whole == Continued(o.kept, Greedy(env, o.final, b, index + |a|, position + |o.kept|)))
    decreases |a|
  {
    if a == [] {
      assert a + b == b;
      var r := Greedy(env, s, b, index, position);
      assert r.Ok? ==> [] + r.value.kept == r.value.kept;
    } else {
      assert (a + b)[1..] == a[1..] + b;
      match Attempt(env, s, a[0], index == 0, position) {
        case Abort =>
        case Cut =>
        case Skip =>
          GreedyAppend(env, s, a[1..], b, index + 1, position);
        case Keep(next) =>
          GreedyAppend(env, next, a[1..], b, index + 1, position + 1);
          var tail := Greedy(env, next, a[1..], index + 1, position + 1);
          if tail.Ok? && !tail.value.cut {
            var o := tail.value;
            var rest := Greedy(env, o.final, b, index + |a|, position + 1 + |o.kept|);
            assert rest.Ok? ==> [a[0]] + (o.kept + rest.value.kept) == ([a[0]] + o.kept) + rest.value.kept;
          }
      }
    }
  }

  /** If the filter succeeds on an extended list, it succeeds on the shorter one with a prefix. */
  lemma FilterPrefix(env: Env, s: Pools, candidates: seq<Tx>, more: seq<Tx>)
    requires candidates != [] && Filter(env, s, candidates + more, false).Ok?
    ensures Filter(env, s, candidates, false).Ok?
    ensures Filter(env, s, candidates, false).value.kept <= Filter(env, s, candidates + more, false).value.kept
  {
    GreedyAppend(env, s, candidates, more, 0, 0);
  }

  /** After a zk-gas overflow nothing that follows is even looked at. */
  lemma NothingAfterTheCut(env: Env, s: Pools, candidates: seq<Tx>, more: seq<Tx>)
    requires Filter(env, s, candidates, false).Ok? && Filter(env, s, candidates, false).value.cut
    ensures Filter(env, s, candidates + more, false) == Filter(env, s, candidates, false)
  {
    GreedyAppend(env, s, candidates, more, 0, 0);
  }

  /** Past the anchor, a candidate's number only shows in error messages. */
  lemma {:induction false} NumberIrrelevant(env: Env, s: Pools, txs: seq<Tx>, i: nat, j: nat, position: nat)
    requires i > 0 && j > 0
    ensures var a, b := Greedy(env, s, txs, i, position), Greedy(env, s, txs, j, position);
            a.Ok? == b.Ok? && (a.Ok? ==> a == b)
    decreases |txs|
  {
    if txs != [] {
      match Attempt(env, s, txs[0], false, position) {
        case Skip => NumberIrrelevant(env, s, txs[1..], i + 1, j + 1, position);
        case Keep(next) => NumberIrrelevant(env, next, txs[1..], i + 1, j + 1, position + 1);
        case _ =>
      }
    }
  }

  /**
   Before it, a candidate's fate is decided by one attempt right after the ones kept so far:
   kept if that succeeds, passed over without effect if it fails recoverably.
   */
  lemma DecidedByOneAttempt(env: Env, s: Pools, candidates: seq<Tx>, tx: Tx, more: seq<Tx>)
    requires candidates != [] && Filter(env, s, candidates, false).Ok?
    requires !Filter(env, s, candidates, false).value.cut
    ensures var o := Filter(env, s, candidates, false).value;
            var whole := Filter(env, s, candidates + [tx] + more, false);
            match Attempt(env, o.final, tx, false, |o.kept|) {
              case Keep(_) => whole.Ok? ==> o.kept + [tx] <= whole.value.kept
              case Skip =>
                var without := Filter(env, s, candidates + more, false);
                whole.Ok? == without.Ok? && (whole.Ok? ==> whole == without)
              case Cut => whole == Ok(o.(cut := true))
              case Abort => whole.Err?
            }
  {
    var o := Filter(env, s, candidates, false).value;
    assert candidates + [tx] + more == candidates + ([tx] + more);
    GreedyAppend(env, s, candidates, [tx] + more, 0, 0);
    GreedyAppend(env, s, candidates, more, 0, 0);
    assert ([tx] + more)[1..] == more;
    NumberIrrelevant(env, o.final, more, |candidates|, |candidates| + 1, |o.kept|);
    assert o.kept + [] == o.kept;
  }
}
