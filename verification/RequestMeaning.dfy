/**
 What an accepted Prove is, said of the request and the environment alone: the views, the witness, the
 body, the execution and its roots of every block, and the path of the anchor events.
 */
module RequestMeaning {
  import opened Wrappers
  import opened Words
  import opened Headers
  import opened Carries
  import opened Witness
  import opened BlockReplay
  import opened Environment
  import opened Requests
  import opened SigningService
  import Execution
  import ReplayMeaning

  // ---------- Execution ----------

  /** The witness opens a state from which the body, as an Unzen block, runs to the final pools. */
  ghost predicate Runs(r: Replay, chainId: u64, m: Machine, final: Execution.Pools) {
    var header := r.block.header;
    var start := m.start(chainId, r.(block := r.block.(header := header.(root := 0, receiptsRoot := 0, difficulty := 0))));
    && start.Some?
    && !start.value.witnessError
    && var env := start.value.env.(unzen := true, taiko := true);
       && (forall tx :: tx in r.block.transactions ==> !env.isBlob(tx))
       && ReplayMeaning.Leads(env, start.value.pools, r.block.transactions, final)
       && m.requestsOk(chainId, r)
       && header.difficulty == final.blockZk
  }

  ghost predicate SettlesTo(r: Replay, chainId: u64, m: Machine, final: Execution.Pools, result: ExecResult) {
    Runs(r, chainId, m, final) && m.settle(chainId, r, final) == Some(result)
  }

  /** An Unzen block runs and settles; any other block is the library's. */
  ghost predicate ExecutesTo(r: Replay, chainId: u64, m: Machine, result: ExecResult) {
    if m.unzen(chainId, r.block.header.time) then exists final :: SettlesTo(r, chainId, m, final, result)
    else m.executeOther(chainId, r) == Some(result)
  }

  lemma RunsMeaning(r: Replay, chainId: u64, m: Machine, start: Start, final: Execution.Pools)
    requires m.unzen(chainId, r.block.header.time) && StartOf(r, chainId, m) == Some(start)
    ensures UnzenOutcome(r, chainId, start, m) == Ok(final) <==> Runs(r, chainId, m, final)
  {
    ReplayMeaning.ReplayAccepts(start.env, start.pools, r.block.transactions, start.witnessError, m.requestsOk(chainId, r),
                                Some(r.block.header.difficulty), final);
  }

  lemma ExecutedMeaning(r: Replay, chainId: u64, m: Machine, result: ExecResult)
    ensures Executed(r, chainId, m) == Some(result) <==> ExecutesTo(r, chainId, m, result)
  {
    if m.unzen(chainId, r.block.header.time) && StartOf(r, chainId, m).Some? {
      var start := StartOf(r, chainId, m).value;
      match UnzenOutcome(r, chainId, start, m)
      case Err(_) =>
        forall final ensures !Runs(r, chainId, m, final) {
          RunsMeaning(r, chainId, m, start, final);
        }
      case Ok(final) =>
        RunsMeaning(r, chainId, m, start, final);
        assert m.settle(chainId, r, final) == Some(result) ==> SettlesTo(r, chainId, m, final, result);
        forall other | SettlesTo(r, chainId, m, other, result) ensures other == final {
          RunsMeaning(r, chainId, m, start, other);
        }
    }
  }

  // ---------- One block ----------

  /** The block is not the genesis block, and its witness's headers are its ancestors, one after the other. */
  ghost predicate Witnessed(header: Header, ancestors: seq<Header>, hashOf: HeaderHash) {
    && ancestors != [] && header.number != 0
    && header.number == (ancestors[0].number + 1) % 0x1_0000_0000_0000_0000
    && header.parentHash == hashOf(ancestors[0])
    && forall i :: 0 < i < |ancestors| ==>
         && ancestors[i - 1].number == (ancestors[i].number + 1) % 0x1_0000_0000_0000_0000
         && ancestors[i - 1].parentHash == hashOf(ancestors[i])
  }

  /** Block i is the one that its view shows, stands on its witness, and executes to the roots in its own header. */
  ghost predicate BlockReplays(c: Content, i: nat, result: ExecResult, m: Machine)
    requires i < |c.raws| == |c.views|
  {
    && m.decode(c.raws[i]).Some?
    && var replay := m.decode(c.raws[i]).value;
       var header, transactions := replay.block.header, replay.block.transactions;
       && c.views[i].number == header.number
       && c.views[i].hash == m.hashOf(header)
       && c.views[i].parentHash == header.parentHash
       && c.views[i].stateRoot == header.root
       && c.views[i].receiptsRoot == header.receiptsRoot
       && Witnessed(header, replay.ancestors, m.hashOf)
       && m.txRoot(transactions) == header.txRoot
       && m.bodyRestOk(replay.block)
       && ExecutesTo(replay.(block := replay.block.(header := header.(root := 0, receiptsRoot := 0))), c.carry.chainId, m,
                     result)
       && result.stateRoot == header.root
       && result.receiptsRoot == header.receiptsRoot
  }

  lemma BlockMeaning(c: Content, i: nat, result: ExecResult, m: Machine)
    requires i < |c.raws| == |c.views|
    ensures BlockReplays(c, i, result, m) <==>
            && BlockOk(m, c.carry.chainId, c.raws[i], c.views[i])
            && Executed(Stripped(m.decode(c.raws[i]).value), c.carry.chainId, m) == Some(result)
  {
    hide Executed, ExecutesTo, WitnessOk;
    if m.decode(c.raws[i]).Some? {
      var replay := m.decode(c.raws[i]).value;
      WitnessMeaning(replay.block.header, replay.ancestors, m.hashOf);
      ExecutedMeaning(Stripped(replay), c.carry.chainId, m, result);
    }
  }

  // ---------- The anchor events ----------

  predicate IsEvent(log: Log, address: Address, topic: Word) {
    log.address == address && |log.topics| > 0 && log.topics[0] == topic
  }

  /** Log number i is the only event, and it reports this previous and this new anchor. */
  ghost predicate OnlyEvent(logs: seq<Log>, i: nat, address: Address, topic: Word, previous: u64, next: u64) {
    && i < |logs|
    && logs[i].address == address && logs[i].topics == [topic] && logs[i].dataLength == 96
    && logs[i].word0 == previous <= 0xffff_ffff_ffff
    && logs[i].word1 == next <= 0xffff_ffff_ffff
    && forall j :: 0 <= j < |logs| && j != i ==> !IsEvent(logs[j], address, topic)
  }

  lemma {:induction false} NoEvents(logs: seq<Log>, address: Address, topic: Word)
    ensures AnchoredLogs(logs, address, topic) == [] <==> forall j :: 0 <= j < |logs| ==> !IsEvent(logs[j], address, topic)
  {
    if logs != [] {
      NoEvents(logs[..|logs| - 1], address, topic);
    }
  }

  ghost predicate OnlyAt(logs: seq<Log>, i: nat, address: Address, topic: Word) {
    && i < |logs| && IsEvent(logs[i], address, topic)
    && forall j :: 0 <= j < |logs| && j != i ==> !IsEvent(logs[j], address, topic)
  }

  lemma {:induction false} OneEvent(logs: seq<Log>, i: nat, address: Address, topic: Word)
    requires OnlyAt(logs, i, address, topic)
    ensures AnchoredLogs(logs, address, topic) == [logs[i]]
  {
    var last := |logs| - 1;
    if i == last {
      NoEvents(logs[..last], address, topic);
    } else {
      OneEvent(logs[..last], i, address, topic);
    }
  }

  lemma {:induction false} FindOnly(logs: seq<Log>, address: Address, topic: Word) returns (i: nat)
    requires |AnchoredLogs(logs, address, topic)| == 1
    ensures OnlyAt(logs, i, address, topic)
  {
    var last := |logs| - 1;
    if IsEvent(logs[last], address, topic) {
      i := last;
      NoEvents(logs[..last], address, topic);
    } else {
      i := FindOnly(logs[..last], address, topic);
    }
  }

  ghost predicate HasOnlyEvent(logs: seq<Log>, address: Address, topic: Word, previous: u64, next: u64) {
    exists i :: OnlyEvent(logs, i, address, topic, previous, next)
  }

  lemma EventMeaning(logs: seq<Log>, address: Address, topic: Word, previous: u64, next: u64)
    ensures AnchoredEvent(logs, address, topic) == Some((previous, next))
            <==> HasOnlyEvent(logs, address, topic, previous, next)
  {
    if AnchoredEvent(logs, address, topic) == Some((previous, next)) {
      var i := FindOnly(logs, address, topic);
      OneEvent(logs, i, address, topic);
      assert logs[i].topics == [topic];
      assert OnlyEvent(logs, i, address, topic, previous, next);
    }
    if HasOnlyEvent(logs, address, topic, previous, next) {
      var i :| OnlyEvent(logs, i, address, topic, previous, next);
      assert OnlyAt(logs, i, address, topic);
      OneEvent(logs, i, address, topic);
    }
  }

  /** The anchor transaction's receipt: successful, with the one event of the chain's anchor contract. */
  ghost predicate Reports(receipts: seq<Receipt>, chainId: u64, m: Machine, previous: u64, next: u64) {
    && receipts != [] && receipts[0].succeeded
    && m.anchorAddress(chainId).Some?
    && HasOnlyEvent(receipts[0].logs, m.anchorAddress(chainId).value, m.anchoredTopic, previous, next)
  }

  lemma ReportsMeaning(receipts: seq<Receipt>, chainId: u64, m: Machine, previous: u64, next: u64)
    ensures AnchorTransition(receipts, chainId, m) == Some((previous, next)) <==> Reports(receipts, chainId, m, previous, next)
  {
    hide HasOnlyEvent, AnchoredEvent;
    if receipts != [] && m.anchorAddress(chainId).Some? {
      EventMeaning(receipts[0].logs, m.anchorAddress(chainId).value, m.anchoredTopic, previous, next);
    }
  }

  // ---------- The whole request ----------

  ghost predicate AllReplay(c: Content, results: seq<ExecResult>, m: Machine) {
    && |results| == |c.raws| == |c.views|
    && forall i: nat :: i < |c.raws| ==> BlockReplays(c, i, results[i], m)
  }

  ghost predicate ReportsAt(results: seq<ExecResult>, anchors: seq<u64>, i: nat, chainId: u64, m: Machine)
    requires i < |results| && |anchors| == |results| + 1
  {
    Reports(results[i].receipts, chainId, m, anchors[i], anchors[i + 1])
  }

  /** The events lead from the host's last anchor through the anchors, one step per block. */
  ghost predicate AnchorsLead(c: Content, results: seq<ExecResult>, anchors: seq<u64>, m: Machine) {
    && c.guestInput.Some?
    && |anchors| == |results| + 1
    && m.lastAnchor(c.guestInput.value) == Some(anchors[0])
    && forall i: nat :: i < |results| ==> ReportsAt(results, anchors, i, c.carry.chainId, m)
  }

  /** The views follow one another, from the carry's parent block to its checkpoint. */
  ghost predicate ViewsLead(views: seq<BlockView>, carry: Carry) {
    && views != []
    && (forall i :: 0 < i < |views| ==>
          && views[i].number == (views[i - 1].number + 1) % 0x1_0000_0000_0000_0000
          && views[i].parentHash == views[i - 1].hash)
    && views[0].parentHash == carry.input.parentBlockHash
    && views[|views| - 1].number == carry.input.checkpoint.number
    && views[|views| - 1].hash == carry.input.checkpoint.hash
    && views[|views| - 1].stateRoot == carry.input.checkpoint.root
  }

  lemma ViewsMeaning(views: seq<BlockView>, carry: Carry)
    ensures ViewsOk(views, carry) <==> ViewsLead(views, carry)
  {
    forall i: nat | 0 < i < |views|
      ensures ViewAfter(views, i) <==>
              && views[i].number == (views[i - 1].number + 1) % 0x1_0000_0000_0000_0000
              && views[i].parentHash == views[i - 1].hash
    {
    }
  }

  ghost predicate EventsLead(c: Content, results: seq<ExecResult>, m: Machine) {
    exists anchors :: AnchorsLead(c, results, anchors, m)
  }

  ghost predicate Proves(c: Content, results: seq<ExecResult>, m: Machine) {
    AllReplay(c, results, m) && (c.guestInput.Some? ==> EventsLead(c, results, m))
  }

  lemma {:induction false} BlocksReplay(c: Content, m: Machine, n: nat) returns (results: seq<ExecResult>)
    requires |c.views| == |c.raws| && n <= |c.raws|
    requires forall i :: 0 <= i < |c.raws| ==> BlockOk(m, c.carry.chainId, c.raws[i], c.views[i])
    ensures |results| == n && forall i: nat :: i < n ==> BlockReplays(c, i, results[i], m)
  {
    hide BlockOk, Executed, BlockReplays;
    results := [];
    if n > 0 {
      var front := BlocksReplay(c, m, n - 1);
      var last := BlockResult(c, m, n - 1);
      results := front + [last];
    }
  }

  lemma BlockResult(c: Content, m: Machine, i: nat) returns (result: ExecResult)
    requires i < |c.raws| == |c.views| && BlockOk(m, c.carry.chainId, c.raws[i], c.views[i])
    ensures BlockReplays(c, i, result, m)
  {
    hide Executed, BlockReplays;
    result := Executed(Stripped(m.decode(c.raws[i]).value), c.carry.chainId, m).value;
    BlockMeaning(c, i, result, m);
  }

  /** What the block's own execution reports is what its result reports. */
  lemma BlockReports(c: Content, m: Machine, i: nat, result: ExecResult, previous: u64, next: u64)
    requires i < |c.raws| == |c.views| && BlockReplays(c, i, result, m)
    ensures BlockAnchors(m, c.carry.chainId, c.raws[i]) == Some((previous, next))
            <==> Reports(result.receipts, c.carry.chainId, m, previous, next)
  {
    hide Executed, Reports, AnchorTransition;
    BlockMeaning(c, i, result, m);
    ReportsMeaning(result.receipts, c.carry.chainId, m, previous, next);
  }

  lemma {:induction false} EventsFollow(c: Content, results: seq<ExecResult>, m: Machine, n: nat) returns (anchors: seq<u64>)
    requires AllReplay(c, results, m) && c.guestInput.Some? && 0 < n <= |c.raws|
    requires forall i: nat :: i < |c.raws| ==> AnchorContinues(c, i, m)
    ensures |anchors| == n + 1 && m.lastAnchor(c.guestInput.value) == Some(anchors[0])
    ensures BlockAnchors(m, c.carry.chainId, c.raws[n - 1]) == Some((anchors[n - 1], anchors[n]))
    ensures forall i: nat :: i < n ==>
              Reports(results[i].receipts, c.carry.chainId, m, anchors[i], anchors[i + 1])
  {
    hide BlockReplays, Reports, BlockAnchors;
    assert AnchorContinues(c, n - 1, m);
    var (previous, next) := BlockAnchors(m, c.carry.chainId, c.raws[n - 1]).value;
    if n == 1 {
      anchors := [previous, next];
    } else {
      var front := EventsFollow(c, results, m, n - 1);
      anchors := front + [next];
    }
    BlockReports(c, m, n - 1, results[n - 1], previous, next);
  }

  lemma EventsContinue(c: Content, results: seq<ExecResult>, anchors: seq<u64>, m: Machine)
    requires AllReplay(c, results, m) && AnchorsLead(c, results, anchors, m)
    ensures forall i: nat :: i < |c.raws| ==> AnchorContinues(c, i, m)
  {
    hide BlockReplays, Reports, BlockAnchors;
    forall i: nat | i < |c.raws| ensures AnchorContinues(c, i, m) {
      assert ReportsAt(results, anchors, i, c.carry.chainId, m);
      BlockReports(c, m, i, results[i], anchors[i], anchors[i + 1]);
      if i > 0 {
        assert ReportsAt(results, anchors, i - 1, c.carry.chainId, m);
        BlockReports(c, m, i - 1, results[i - 1], anchors[i - 1], anchors[i]);
      }
    }
  }

  lemma ProvedReplays(c: Content, m: Machine) returns (results: seq<ExecResult>)
    requires ProveOk(c, m)
    ensures Proves(c, results, m)
  {
    hide BlockOk, BlockReplays, AnchorContinues, ViewsOk;
    results := BlocksReplay(c, m, |c.raws|);
    if c.guestInput.Some? {
      var anchors := EventsFollow(c, results, m, |c.raws|);
      forall i: nat | i < |results| ensures ReportsAt(results, anchors, i, c.carry.chainId, m) {
      }
      assert AnchorsLead(c, results, anchors, m);
    }
  }

  lemma ReplayedProves(c: Content, results: seq<ExecResult>, m: Machine)
    requires Proves(c, results, m) && ViewsOk(c.views, c.carry) && m.knownChain(c.carry.chainId)
    ensures ProveOk(c, m)
  {
    hide BlockOk, BlockReplays, AnchorContinues, ViewsOk, AnchorsLead;
    forall i | 0 <= i < |c.raws| ensures BlockOk(m, c.carry.chainId, c.raws[i], c.views[i]) {
      BlockMeaning(c, i, results[i], m);
    }
    if c.guestInput.Some? {
      var anchors :| AnchorsLead(c, results, anchors, m);
      EventsContinue(c, results, anchors, m);
    }
    assert c.views != [] by {
      ViewsMeaning(c.views, c.carry);
    }
  }

  /**
   A sealed request is signed exactly when its chain is known, its views lead from its carry's parent
   block to its checkpoint, every block replays, and the anchor events lead on from the last anchor.
   */
  lemma ProveMeaning(c: Content, m: Machine)
    ensures ProveOk(c, m) <==>
            && m.knownChain(c.carry.chainId)
            && ViewsLead(c.views, c.carry)
            && exists results :: Proves(c, results, m)
  {
    hide ProveOk, Proves, ViewsOk, ViewsLead;
    ViewsMeaning(c.views, c.carry);
    if ProveOk(c, m) {
      ProvedFacts(c, m);
      var results := ProvedReplays(c, m);
    }
    if m.knownChain(c.carry.chainId) && ViewsOk(c.views, c.carry) && exists results :: Proves(c, results, m) {
      var results :| Proves(c, results, m);
      ReplayedProves(c, results, m);
    }
  }

  lemma ProvedFacts(c: Content, m: Machine)
    requires ProveOk(c, m)
    ensures m.knownChain(c.carry.chainId) && ViewsOk(c.views, c.carry)
  {
  }
}
