/**
 What the filter decides, said of the execution environment alone: four ways a candidate behind the
 anchor can go, and the one way the anchor can.  Together with the empty list and the witness check
 they determine the filter on every list.
 */
module FilterMeaning {
  import opened Wrappers
  import opened Execution
  import opened TxFilter

  // ---------- The fates of a candidate behind the anchor, on the pools it meets ----------

  /** It cannot become a message or its execution fails, in a way that block building skips. */
  predicate Recoverable(env: Env, s: Pools, tx: Tx, position: nat) {
    match env.message(tx, false)
    case Some(fault) => fault != Fatal
    case None =>
      var a := env.apply(s, tx, false, position);
      !a.witnessError && (a.fault == Some(Skippable) || (a.fault == Some(ZkGasLimit) && !env.unzen))
  }

  /** It runs out of zk gas in an Unzen block: while executing, or when its use is added to the block's. */
  predicate Overflows(env: Env, s: Pools, tx: Tx, position: nat) {
    var a := env.apply(s, tx, false, position);
    && env.unzen && env.message(tx, false) == None && !a.witnessError
    && (a.fault == Some(ZkGasLimit) || (a.fault == None && !env.zkFits(s.blockZk, a.txZk)))
  }

  /** It breaks the block: an error that no canonical block can contain, or state the witness lacks. */
  predicate Breaks(env: Env, s: Pools, tx: Tx, position: nat) {
    match env.message(tx, false)
    case Some(fault) => fault == Fatal
    case None =>
      var a := env.apply(s, tx, false, position);
      a.witnessError || a.fault == Some(Fatal)
  }

  /** It is executed and, in an Unzen block, its zk gas fits. */
  predicate Executes(env: Env, s: Pools, tx: Tx, position: nat) {
    var a := env.apply(s, tx, false, position);
    && env.message(tx, false) == None && !a.witnessError && a.fault == None
    && (env.unzen ==> env.zkFits(s.blockZk, a.txZk))
  }

  /** What execution makes of the pools. */
  function Spent(env: Env, s: Pools, tx: Tx, asAnchor: bool, position: nat): Pools {
    var a := env.apply(s, tx, asAnchor, position);
    Pools(a.world, a.gas, if env.unzen then s.blockZk + a.txZk else s.blockZk)
  }

  lemma OneFate(env: Env, s: Pools, tx: Tx, position: nat)
    ensures Recoverable(env, s, tx, position) || Overflows(env, s, tx, position) || Breaks(env, s, tx, position)
            || Executes(env, s, tx, position)
    ensures !(Recoverable(env, s, tx, position) && Overflows(env, s, tx, position))
    ensures !(Recoverable(env, s, tx, position) && Breaks(env, s, tx, position))
    ensures !(Recoverable(env, s, tx, position) && Executes(env, s, tx, position))
    ensures !(Overflows(env, s, tx, position) && Breaks(env, s, tx, position))
    ensures !(Overflows(env, s, tx, position) && Executes(env, s, tx, position))
    ensures !(Breaks(env, s, tx, position) && Executes(env, s, tx, position))
  {
    var a := env.apply(s, tx, false, position);
    match a.fault
    case None =>
    case Some(ZkGasLimit) =>
    case Some(Skippable) =>
    case Some(Fatal) =>
  }

  /** A candidate list that the filter got through, and where that left it. */
  ghost predicate Reaches(env: Env, start: Pools, candidates: seq<Tx>, kept: seq<Tx>, s: Pools) {
    candidates != [] && Filter(env, start, candidates, false) == Ok(Outcome(kept, s, false))
  }

  /** A recoverable candidate is as good as absent, whatever follows. */
  lemma RecoverableIsAbsent(env: Env, start: Pools, candidates: seq<Tx>, kept: seq<Tx>, s: Pools, tx: Tx, more: seq<Tx>)
    requires Reaches(env, start, candidates, kept, s) && Recoverable(env, s, tx, |kept|)
    ensures var whole, without := Filter(env, start, candidates + [tx] + more, false), Filter(env, start, candidates + more, false);
            whole.Ok? == without.Ok? && (whole.Ok? ==> whole == without)
  {
    DecidedByOneAttempt(env, start, candidates, tx, more);
  }

  /** The first overflow ends the block with exactly what was kept before it. */
  lemma OverflowEndsBlock(env: Env, start: Pools, candidates: seq<Tx>, kept: seq<Tx>, s: Pools, tx: Tx, more: seq<Tx>)
    requires Reaches(env, start, candidates, kept, s) && Overflows(env, s, tx, |kept|)
    ensures Filter(env, start, candidates + [tx] + more, false) == Ok(Outcome(kept, s, true))
  {
    DecidedByOneAttempt(env, start, candidates, tx, more);
  }

  /** A breaking candidate refuses the block. */
  lemma BreakRefusesBlock(env: Env, start: Pools, candidates: seq<Tx>, kept: seq<Tx>, s: Pools, tx: Tx, more: seq<Tx>)
    requires Reaches(env, start, candidates, kept, s) && Breaks(env, s, tx, |kept|)
    ensures Filter(env, start, candidates + [tx] + more, false) == Err(CandidateFailed(|candidates|))
  {
    assert candidates + [tx] + more == candidates + ([tx] + more);
    GreedyAppend(env, start, candidates, [tx] + more, 0, 0);
  }

  /** An executed candidate is kept, at the end, and its effects stay. */
  lemma ExecutedIsKept(env: Env, start: Pools, candidates: seq<Tx>, kept: seq<Tx>, s: Pools, tx: Tx)
    requires Reaches(env, start, candidates, kept, s) && Executes(env, s, tx, |kept|)
    ensures Reaches(env, start, candidates + [tx], kept + [tx], Spent(env, s, tx, false, |kept|))
  {
    GreedyAppend(env, start, candidates, [tx], 0, 0);
    assert [tx][1..] == [];
    var next := Spent(env, s, tx, false, |kept|);
    assert Greedy(env, next, [], |candidates| + 1, |kept| + 1) == Ok(Outcome([], next, false));
    assert Greedy(env, s, [tx], |candidates|, |kept|) == Ok(Outcome([tx] + [], next, false));
    assert [tx] + [] == [tx];
  }

  // ---------- The anchor ----------

  /** The anchor must execute, with a successful receipt and, in an Unzen block, within the zk-gas limit. */
  predicate AnchorExecutes(env: Env, s: Pools, anchor: Tx) {
    var a := env.apply(s, anchor, true, 0);
    && env.canMarkAnchor(anchor) && env.message(anchor, true) == None
    && !a.witnessError && a.fault == None && a.receiptOk
    && (env.unzen ==> env.zkFits(s.blockZk, a.txZk))
  }

  /** Anything else about the anchor refuses the block, and nothing but the anchor does at that point. */
  lemma AnchorDecides(env: Env, start: Pools, anchor: Tx, more: seq<Tx>)
    ensures AnchorExecutes(env, start, anchor) ==>
              Reaches(env, start, [anchor], [anchor], Spent(env, start, anchor, true, 0))
    ensures !AnchorExecutes(env, start, anchor) ==>
              Filter(env, start, [anchor] + more, false) == Err(CandidateFailed(0))
  {
    assert [anchor][1..] == [] && ([anchor] + more)[1..] == more;
    var next := Spent(env, start, anchor, true, 0);
    assert Greedy(env, next, [], 1, 1) == Ok(Outcome([], next, false));
    if AnchorExecutes(env, start, anchor) {
      assert Attempt(env, start, anchor, true, 0) == Keep(next);
      assert Greedy(env, start, [anchor], 0, 0) == Ok(Outcome([anchor] + [], next, false));
      assert [anchor] + [] == [anchor];
    }
  }

  /** Without candidates, or with a witness that already failed, there is no block. */
  lemma NothingToFilter(env: Env, start: Pools, candidates: seq<Tx>)
    ensures Filter(env, start, [], false).Err?
    ensures Filter(env, start, candidates, true).Err?
  {
  }

  /**
   So the filter succeeds on a list exactly when its anchor executes and, as long as nothing has
   overflowed, no candidate breaks on the pools it meets.
   */
  ghost predicate Clean(env: Env, start: Pools, candidates: seq<Tx>, i: nat)
    requires 0 < i < |candidates|
  {
    var before := Filter(env, start, candidates[..i], false);
    before.Ok? && !before.value.cut ==> !Breaks(env, before.value.final, candidates[i], |before.value.kept|)
  }

  lemma {:induction false} FilterSucceeds(env: Env, start: Pools, candidates: seq<Tx>)
    requires candidates != []
    ensures Filter(env, start, candidates, false).Ok? <==>
            && AnchorExecutes(env, start, candidates[0])
            && forall i: nat :: 0 < i < |candidates| ==> Clean(env, start, candidates, i)
  {
    var last := |candidates| - 1;
    assert candidates == [candidates[0]] + candidates[1..];
    AnchorDecides(env, start, candidates[0], candidates[1..]);
    if last == 0 {
      assert candidates == [candidates[0]];
    } else {
      var front := candidates[..last];
      FilterSucceeds(env, start, front);
      forall i: nat | 0 < i < last ensures Clean(env, start, front, i) == Clean(env, start, candidates, i) {
        assert front[..i] == candidates[..i];
      }
      assert candidates == front + [candidates[last]];
      if Filter(env, start, candidates, false).Ok? {
        FilterPrefix(env, start, front, [candidates[last]]);
      }
      if Filter(env, start, front, false).Ok? {
        LastDecides(env, start, front, candidates[last]);
      }
      assert Clean(env, start, candidates, last) ==
             (Filter(env, start, front, false).Ok? && !Filter(env, start, front, false).value.cut ==>
                !Breaks(env, Filter(env, start, front, false).value.final, candidates[last],
                        |Filter(env, start, front, false).value.kept|));
    }
  }

  lemma LastDecides(env: Env, start: Pools, front: seq<Tx>, tx: Tx)
    requires front != [] && Filter(env, start, front, false).Ok?
    ensures var o := Filter(env, start, front, false).value;
            Filter(env, start, front + [tx], false).Ok? <==> o.cut || !Breaks(env, o.final, tx, |o.kept|)
  {
    var o := Filter(env, start, front, false).value;
    if o.cut {
      NothingAfterTheCut(env, start, front, [tx]);
    } else {
      assert front + [tx] + [] == front + [tx] && front + [] == front;
      OneFate(env, o.final, tx, |o.kept|);
      if Recoverable(env, o.final, tx, |o.kept|) {
        RecoverableIsAbsent(env, start, front, o.kept, o.final, tx, []);
      } else if Overflows(env, o.final, tx, |o.kept|) {
        OverflowEndsBlock(env, start, front, o.kept, o.final, tx, []);
      } else if Breaks(env, o.final, tx, |o.kept|) {
        BreakRefusesBlock(env, start, front, o.kept, o.final, tx, []);
      } else {
        ExecutedIsKept(env, start, front, o.kept, o.final, tx);
      }
    }
  }
}
