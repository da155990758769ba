# gaiko2: verified model of derivation, replay and signing

gaiko2 checks that the L2 blocks of a Taiko Shasta proposal follow from the proposal's L1 data,
replays the blocks, and signs a commitment to them. This project models that path in Dafny and
proves what it guarantees. `dafny verify dfyconfig.toml` checks all of it.

| file | part of gaiko2 |
|---|---|
| `BlobCodec.dfy`, `BlobPrinter.dfy` | unpacking of 131072-byte blobs, and the matching encoder |
| `Execution.dfy`, `TxFilter.dfy`, `UnzenReplay.dfy` | state, gas pool and zk meter; the transaction filter; the Unzen replay loop |
| `FilterMeaning.dfy`, `ReplayMeaning.dfy` | which candidates are skipped, end the block, break it or are kept; what an accepted replay is, step by step |
| `Words.dfy`, `Derivation.dfy`, `DerivationFold.dfy` | sources to blocks: inheritance, the three checks, the fold, the final anchor check |
| `DerivationContent.dfy` | when a source's own content counts, what replaces it, and how the derived list is made of such parts |
| `DerivationProperties.dfy`, `DerivationAnchors.dfy` | what every derivation guarantees; the final anchor check |
| `Headers.dfy`, `AnchorLinkage.dfy` | L1 headers and the single-pass checkpoint merge |
| `Witness.dfy` | witness headers, their reversal and check, the chain context |
| `Carries.dfy`, `Hashing.dfy` | carries, their list check, subproof, aggregate and commitment words |
| `Environment.dfy`, `BlockReplay.dfy`, `ManifestBinding.dfy` | what the prover calls without the model opening it; executing a block on its witness; the binding of a guest input to its proposal |
| `BindingMeaning.dfy` | what the binding accepts, field by field |
| `Requests.dfy`, `SigningService.dfy`, `SigningProperties.dfy` | sealing, Prove, Aggregate, and all runs of them |
| `RequestMeaning.dfy`, `AggregateMeaning.dfy` | exactly what Prove and Aggregate sign |
| `EndToEnd.dfy` | what a signed aggregate stands for, from the proposals' sources to the signed hash |
| `KeyInstall.dfy` | the key install protocol between crashing processes |

## Assumptions

* The EVM is one deterministic function of the pools, the transaction, its position and whether it
  runs as the anchor (`Execution.Env.apply`). A failed call may leave any state and gas behind.
* The filter and the replay open one start state from a block, its ancestors and its witness's state
  (`Environment.Machine.start`). It does not depend on the roots and the difficulty in the header: of
  these the transactions see only the block hash, as a label of their logs. Unzen is a fork of Taiko
  chains only.
* Reverting restores the snapshot, in both failure branches of the filter. Resetting the zk meter
  clears the transaction's counter only; committing adds it to the block's counter or fails and
  leaves that counter alone.
* Hashes are functions on words; where a lemma says `Ideal` or `Injective` they are injective. Words
  are unbounded naturals, so such hashes exist (`Hashing.IdealHashExists`). An address and a number
  are the word they are padded to.
* Signatures are ideal: one recovers its signer exactly when that signer issued it for that hash.
  Signing never fails. So the statements over runs are about keys sealed in an enclave; in native mode
  the private key is published and anyone can sign.
* A carry that does not decode, or does not fit its 48-bit fields, is `None` where requests are
  validated. Headers always carry a number, as their decoder demands.
* Every call on the file system is one atomic step. A failed call has no effect, and the random
  suffix of a temporary file may collide. The file system that a run starts from may hold anything
  except a key file that is not whole.
* Derivation properties range over decoded sources of any content (`Derivation.Decoded`);
  `DerivationFold.DeriveBlocks` applies them to what the blobs decode to. `TimeHeadroom` and
  `GasHeadroom` in `DerivationProperties` say that no timestamp, and no block number or gas limit, wraps.
* A list of headers holds at most 2^64 of them, for 48-bit statements at most 2^63, as every slice does.
* Error messages are collapsed to one error, or to a few constructors where callers tell them apart.

## Findings

* The decoder masks the two top bits of a blob's first byte instead of checking them. Re-encoding an
  accepted blob gives it back exactly when these bits are clear (`BlobRoundTrip`), and blobs
  that differ only there share their payload (`SamePayload`, `IgnoredBits`).
* `shouldBypassStalledAnchorLinkage` subtracts unsigned. When the origin lies behind the last anchor
  and the wrapped distance falls inside the anchor window, a derivation made of inherited blocks
  fails the final anchor check. This is the only such case (`DerivedAnchorsAccepted`), it arises for
  every such origin on every chain (`WrappedOriginRefused`), and 48-bit block numbers exclude it.
* The L1 header pass compares numbers modulo 2^64 and accepts paths that go below block 0. On such
  paths, and on no others, it would accept checkpoints whose numbers go back (`NumbersGoBackBelowZero`).
  Decoding enforces 48-bit numbers, and with them its meaning is the plain one on paths of any length
  (`MergeMeaningAt48Bits`). The path never matters to which checkpoints are accepted
  (`CheckpointsDetermined`).
* The subproof hash masks timestamp and block number to 48 bits, so it is injective only on carries
  that fit (`SubproofHashMeaning`, `SubproofHashCollides`); both request decoders enforce the widths.
* The replay loop ignores a failing zk-gas commit of the anchor and does not look at the anchor's
  receipt status; the filter refuses both. `FilterAgreesWithReplay` carries that as `AnchorSound`,
  and `UnsoundAnchorReplays` shows for either part a body that replays in full and that the filter refuses.

## Model

| member | source | states |
|---|---|---|
| BlobCodec.UnpackPackRound | internal/prover/blob_coder.go:92-101 | reassembling the headers that the encoder writes gives back all 127 bytes of a round, and these headers pass the six-bit check |
| BlobCodec.PackUnpackRound | internal/prover/blob_coder.go:73-101 | and back: a round with six-bit headers is what the encoder writes for its 127 bytes |
| BlobCodec.DecodeFieldElement | internal/prover/blob_coder.go:73-90 | in place: succeeds iff in bounds with a six-bit header; writes exactly 31 bytes once each, moves both cursors by 32, touches nothing else |
| BlobCodec.ReassembleBytes | internal/prover/blob_coder.go:92-101 | in place: writes exactly the three holes of the round, once each, and steps the cursor back by one |
| BlobCodec.DecodeElements | internal/prover/blob_coder.go:37-61 | the inner loop: the cursors never leave the buffers, so it fails only for a header with high bits; every non-hole byte of the round is in place |
| BlobCodec.DecodeRound | internal/prover/blob_coder.go:33-63 | after round k the cursors are 127(k+1)-4 and 128(k+1), the round's 127 content bytes are in place and were written once each, no other byte was written |
| BlobCodec.DecodeRounds | internal/prover/blob_coder.go:25-63 | every run of the round loop: it stops after enough rounds with the output holding exactly their contents, each byte below the cursor written exactly once and no other byte at all; or the blob carries no payload |
| BlobCodec.DecodeShastaBlob | internal/prover/blob_coder.go:12-71 | the whole decoder returns p exactly for the blobs that are the encoding of p up to the two ignored bits, and errors otherwise |
| BlobCodec.DecodeBlobIs | internal/prover/blob_coder.go:12-71 | the decoder's result is determined by the encoder: Ok(p) iff the blob with its first byte masked is the encoding of p |
| BlobCodec.CarriesUnique | internal/prover/blob_coder.go:12-71 | no blob carries two payloads |
| BlobCodec.PayloadRoundTrip | internal/prover/blob_coder.go:12-101 | every payload of at most 130044 bytes survives encoding and decoding |
| BlobCodec.BlobRoundTrip | internal/prover/blob_coder.go:30-101 | re-encoding an accepted blob gives it back iff the top two bits of its first byte are clear |
| BlobCodec.SamePayload | internal/prover/blob_coder.go:12-101 | two accepted blobs decode alike iff they differ at most in those two bits |
| BlobCodec.IgnoredBits | internal/prover/blob_coder.go:30-101 | the bits are really ignored: a concrete blob that decodes and does not re-encode to itself |
| BlobPrinter.PrintRound | internal/prover/manifest_validate_test.go:2164-2200 | one round of the encoder's loop, with its read cursor, writes the packing of that round's content |
| BlobPrinter.PrintBlob | internal/prover/manifest_validate_test.go:2113-2205 | the encoder's loop, with its early exit, writes exactly the blob that the codec's round trips are about |
| Execution.BlockExecution.CommitTransaction | internal/prover/manifest_tx_filter.go:274-282 | zk meter: the transaction's zk gas moves to the block if it fits, otherwise the block's stays |
| TxFilter.CandidateTransactions | internal/prover/manifest_tx_filter.go:136-159 | the loop yields the anchor and then, in order, the listed transactions that are no blobs and have a sender |
| TxFilter.TryCandidate | internal/prover/manifest_tx_filter.go:208-286 | one turn of the loop refines one greedy verdict; a candidate that is not committed leaves state, gas and block zk gas as before |
| TxFilter.CommitFiltered | internal/prover/manifest_tx_filter.go:161-289 | the mutating loop with snapshots, skips and the hard stop computes the recursive greedy specification, result and final pools |
| TxFilter.GreedyLeavesNoTrace | internal/prover/manifest_tx_filter.go:208-294 | from any point of a run: the final pools are those of executing only the kept transactions, and they alone would be kept again |
| TxFilter.NoTrace | internal/prover/manifest_tx_filter.go:208-294 | rejected candidates leave no trace in state, gas pool or block zk gas; the anchor is always kept |
| TxFilter.FilterIdempotent | internal/prover/manifest_tx_filter.go:136-289 | filtering the filter's own output, candidate selection included, commits all of it with the same final pools |
| TxFilter.GreedyAppend | internal/prover/manifest_tx_filter.go:208-288 | a longer candidate list continues the run of the shorter one from its final pools, or stays at its cut |
| TxFilter.FilterPrefix | internal/prover/manifest_tx_filter.go:208-288 | if a longer run succeeds, the shorter one does, with a prefix of its result |
| TxFilter.NothingAfterTheCut | internal/prover/manifest_tx_filter.go:261-284 | after the first zk-gas overflow nothing that follows matters |
| TxFilter.DecidedByOneAttempt | internal/prover/manifest_tx_filter.go:208-286 | a candidate's fate is decided by one attempt right after those kept before it; a skipped one could as well not be there |
| FilterMeaning.OneFate | internal/prover/manifest_tx_filter.go:208-286 | every candidate behind the anchor has exactly one fate on the pools it meets: it is skipped, overflows, breaks the block, or executes |
| FilterMeaning.RecoverableIsAbsent | internal/prover/manifest_tx_filter.go:226-266 | a message rejection or execution failure that block building skips, an exceeded zk-gas limit outside Unzen included, leaves the same result as a list without the candidate |
| FilterMeaning.OverflowEndsBlock | internal/prover/manifest_tx_filter.go:255-284 | an Unzen zk-gas overflow, while executing or on commit, ends the block with exactly what was kept before it |
| FilterMeaning.BreakRefusesBlock | internal/prover/manifest_tx_filter.go:226-264 | an error that no canonical block can contain, or state the witness lacks, refuses the block and names the candidate |
| FilterMeaning.ExecutedIsKept | internal/prover/manifest_tx_filter.go:274-287 | an executed candidate that fits is appended and its effects on state, gas and zk gas stay |
| FilterMeaning.AnchorDecides | internal/prover/manifest_tx_filter.go:213-279 | the anchor is kept iff it can be marked, becomes a message, executes without fault or witness error, has a successful receipt and fits the zk gas; otherwise the block is refused |
| FilterMeaning.FilterSucceeds | internal/prover/manifest_tx_filter.go:161-289 | the filter succeeds on a list iff its anchor executes and no candidate before the first overflow breaks the block on the pools it meets |
| UnzenReplay.FindBlob | internal/prover/replay.go:145-149 | finds the first blob transaction, if any |
| UnzenReplay.ReplayTransaction | internal/prover/replay.go:163-196 | one turn of the replay loop advances, truncates or refuses as the recursive specification says |
| UnzenReplay.ReplayBody | internal/prover/replay.go:163-196 | the loop computes the recursive specification: receipts, final pools, witness error |
| UnzenReplay.ReplayUnzenBlock | internal/prover/replay.go:122-228 | blob check, loop, truncation check, difficulty check, witness check, in this order, on the mutated pools |
| UnzenReplay.TailAgreement | internal/prover/replay.go:163-196 | behind the anchor: the filter keeps a whole list iff the replay loop commits all of it, with the same pools |
| UnzenReplay.FilterAgreesWithReplay | internal/prover/replay.go:150-214 | the filter returns a body unchanged iff the replay loop commits all of it without witness error in the same pools and the anchor's receipt and zk-gas commit succeed |
| UnzenReplay.UnsoundAnchorReplays | internal/prover/replay.go:184-200 | either part of that anchor condition is needed: with a failed receipt, or more zk gas than the block's limit leaves, the loop commits the anchor and the filter refuses it |
| UnzenReplay.BoundBlockReplays | internal/prover/replay.go:122-228 | a block bound by its transaction root to the filter's output never hits the truncation error, and is accepted iff its difficulty is the zk gas that the filter counted |
| ReplayMeaning.ReplayAccepts | internal/prover/replay.go:122-228 | for every body: accepted with given final pools iff it has no blob transaction, a trace of successful steps, one per transaction, leads from the start to these pools, the witness never failed, the requests are right and the difficulty is their zk gas |
| ReplayMeaning.PastTruncationRefused | internal/prover/replay.go:175-214 | a body that holds a transaction past the zk gas, alone or with more behind it, is refused with the truncation error and the number of transactions before it |
| Derivation.DecodeBlobBacked | internal/prover/manifest_validate.go:340-413 | only a missing or wrongly sized blob is an error; undecodable content, or more blocks than allowed, gives the default manifest |
| Derivation.ApplyInheritedMetadata | internal/prover/manifest_validate.go:431-448 | the in-place loop gives every block the inherited timestamp, proposer, anchor and gas limit |
| Derivation.ValidateTimestamps | internal/prover/manifest_validate.go:496-515 | accepts iff every block lies between the lower bound that its predecessor sets and the proposal's timestamp |
| Derivation.ValidateAnchorProgression | internal/prover/manifest_validate.go:620-649 | accepts iff non-empty, never below the last anchor, inside the origin's window, never going back |
| Derivation.ValidateAnchorNumbers | internal/prover/manifest_validate.go:517-553 | forced: all equal the parent's anchor; normal: progression, and some anchor beyond the parent's |
| Derivation.ValidateGasLimits | internal/prover/manifest_validate.go:658-672 | accepts iff every block is within the bounds that its predecessor sets, starting from the effective parent limit |
| Derivation.ValidateSourceManifest | internal/prover/manifest_validate.go:480-494 | non-empty and all three checks |
| Derivation.PrepareSourceManifest | internal/prover/manifest_validate.go:303-338 | decode, force to one block, inherit, check, fall back: the specified manifest or the specified error |
| DerivationContent.BlobsAreRead | internal/prover/manifest_validate.go:303-413 | blobs that carry pieces of content are read as their concatenation from the offset on, and count unless they parse to nothing or to too many blocks |
| DerivationContent.NothingToRead | internal/prover/manifest_validate.go:303-372 | no blobs, an offset past 131008, or a blob of proper length that carries nothing gives one all-zero block |
| DerivationContent.HostAtFault | internal/prover/manifest_validate.go:340-352 | only missing blobs and blobs of a wrong length are errors |
| DerivationContent.InTimeMeaning | internal/prover/manifest_validate.go:450-515 | a timestamp meets the bounds iff it is after the block before it and the fork, at most 6144 or 1536 seconds before the proposal, and not past it |
| DerivationContent.InGasRangeMeaning | internal/prover/manifest_validate.go:690-711 | a limit meets the bounds iff it rises by at most 200 parts in a million, stays at most 45 million, and falls by at most 200 parts in a million to no less than 10 million, or is the highest limit allowed; stated without division |
| DerivationContent.ChecksMeaning | internal/prover/manifest_validate.go:480-711 | the three checks of a source hold iff these conditions hold at every block and its anchors stay (forced) or keep to the origin's window, never go back, and pass the parent's |
| DerivationContent.NormalContentCounts | internal/prover/manifest_validate.go:303-338 | a normal source with content of its own is that content, transactions and all, iff it passes; otherwise it is one empty block with the inherited time, proposer, anchor and gas limit |
| DerivationContent.ForcedContentCounts | internal/prover/manifest_validate.go:303-338 | a forced source is one inherited block, with its own transactions iff it has one block, the proposal leaves time for it, and the parent's gas limit is one a block may have |
| DerivationFold.AppendSource | internal/prover/manifest_validate.go:162-173 | each block of a source becomes the parent of the next |
| DerivationFold.DeriveBlocks | internal/prover/manifest_validate.go:136-175 | the fold over sources, which rebinds the parent and appends, computes the recursive derivation or stops at its first error |
| DerivationFold.ShouldBypassStalledAnchors | internal/prover/manifest_validate.go:1448-1462 | true iff all anchors equal the last one and the wrapped distance to the origin exceeds the window |
| DerivationFold.ValidateSourceAwareAnchors | internal/prover/manifest_validate.go:555-618 | accepts iff forced spans precede one normal span, all are non-empty, they cover the anchors, forced anchors equal the last one, and the rest progresses or is stalled |
| DerivationFold.DeriveProposal | internal/prover/manifest_validate.go:136-196 | succeeds iff the fold does, as many blocks as witnesses were derived, and the anchors are accepted |
| DerivationFold.PreparedShape | internal/prover/manifest_validate.go:303-338 | a prepared source passes all checks or is exactly the inherited default block; a forced one is one block at the parent's anchor |
| DerivationFold.FoldExplained | internal/prover/manifest_validate.go:136-175 | the derived list splits by source into parts that were each checked against, or inherited from, the parent that the parts before lead to |
| DerivationContent.DerivationMeaning | internal/prover/manifest_validate.go:136-175 | a derivation yields a list iff the list is made of one part per source, each standing for its source's content on the context that the part before it left |
| DerivationContent.DerivationFails | internal/prover/manifest_validate.go:136-161 | and it fails iff some source's host is at fault |
| DerivationProperties.TimestampsMeaning | internal/prover/manifest_validate.go:450-515 | the loop's moving bound means: first at or above the initial bound, strictly increasing, last at most the proposal's timestamp |
| DerivationProperties.BlockCountBound | internal/prover/manifest_validate.go:450-515 | an accepted source has at most one block per second of its window |
| DerivationProperties.GasBoundsOrdered | internal/prover/manifest_validate.go:690-711 | lower <= upper <= 45 million for every parent; inside 10 to 45 million the bounds contain the parent |
| DerivationProperties.FoldChained | internal/prover/manifest_validate.go:136-175 | across sources, each derived block follows the one before it in time and anchor |
| DerivationProperties.FoldGasChained | internal/prover/manifest_validate.go:136-175 | across sources, each derived gas limit follows the one before it, while no block number or gas limit wraps |
| DerivationProperties.ContextAfter | internal/prover/manifest_validate.go:162-173 | the parent after a list of blocks: number advanced by its length modulo 2^64, the last block's time and anchor, its gas limit plus the anchor's gas |
| DerivationProperties.DerivedMonotone | internal/prover/manifest_validate.go:136-196 | over the whole proposal anchors never decrease, and timestamps strictly increase unless they can wrap |
| DerivationProperties.DerivedGas | internal/prover/manifest_validate.go:658-711 | over the whole proposal, whatever the timestamps, limits stay within 10 to 45 million, and g_n * 1000000^n <= g_0 * 1000200^n under floor division |
| DerivationProperties.DerivedCeiling | internal/prover/manifest_validate.go:450-468 | a proposal of n blocks moves time at most n seconds past the latest of parent, proposal and fork time |
| DerivationProperties.DerivedContext | internal/prover/manifest_validate.go:162-173 | the next proposal's time and anchor are those of the last derived block |
| DerivationProperties.DerivedGasContext | internal/prover/manifest_validate.go:162-173 | the next effective parent gas limit is the last derived block's own limit, and the number has advanced by the number of blocks |
| DerivationAnchors.SpansMirror | internal/prover/manifest_validate.go:158-161 | one span per source, of its kind; together they cover the derived blocks exactly |
| DerivationAnchors.FoldAnchors | internal/prover/manifest_validate.go:136-197 | forced blocks keep the last anchor; the final source progresses past it or is one block that stays |
| DerivationAnchors.DerivedAnchorsAccepted | internal/prover/manifest_validate.go:517-618 | whatever the fold produces passes the final anchor check iff the sources are forced ones then one normal one and the origin does not wrap into the window |
| DerivationAnchors.DerivedAnchorsAcceptedAt48Bits | internal/prover/manifest_validate.go:555-618 | so with 48-bit numbers the check never refuses a well-shaped derivation |
| DerivationAnchors.WrappedOriginRefused | internal/prover/manifest_validate.go:1448-1462 | for every parent, proposal and chain whose origin wraps into the window, one source without blobs derives its inherited block and is refused |
| DerivationAnchors.SourceAwareMeaning | internal/prover/manifest_validate.go:555-618 | for any anchors and spans: accepted iff non-empty forced spans and one non-empty normal span cover the anchors, forced blocks stay, and the rest moves on in the window or all stay out of it |
| Headers.LinkedFromTheEnd | internal/prover/manifest_validate.go:1402-1421 | hash-linked lists with one end agree from the end |
| AnchorLinkage.ConsumeHeader | internal/prover/manifest_validate.go:1422-1430 | the inner loop consumes exactly the checkpoints of one header and stops at one that differs |
| AnchorLinkage.MergeCheckpoints | internal/prover/manifest_validate.go:1398-1445 | the single pass accepts iff the list ends at the origin, is linked, and its scan consumes every checkpoint |
| AnchorLinkage.MergeMeaning | internal/prover/manifest_validate.go:1398-1445 | for every path: non-empty, contiguous modulo 2^64, hash-linked, ending at the origin, checkpoints not going back along the path and each a copy of the header at its number |
| AnchorLinkage.MergeMeaningAt48Bits | internal/prover/manifest_validate.go:1398-1445 | with the decoded widths, on paths of any length: checkpoints ascend, and each copies the header that stands as far below the origin as its number |
| AnchorLinkage.NumbersGoBackBelowZero | internal/prover/manifest_validate.go:1406-1421 | without the widths, the pass accepts a list of checkpoints whose numbers go back iff the path reaches below block 0 |
| AnchorLinkage.AncestorsAgree | internal/prover/manifest_validate.go:1402-1445 | accepted ancestor lists for one origin are suffixes of one another |
| AnchorLinkage.OneCheckpointPerNumber | internal/prover/manifest_validate.go:1402-1445 | for one origin each L1 block number admits at most one checkpoint, over all paths a host may send |
| AnchorLinkage.ForcedInclusionPrefixCount | internal/prover/manifest_validate.go:1335-1343 | sums the forced spans before the last |
| AnchorLinkage.ValidateAnchorL1Linkage | internal/prover/manifest_validate.go:1345-1446 | the whole check: L1 header, stalled bypass against the parent's checkpoint, forced prefix, merge of the rest |
| AnchorLinkage.EveryCheckpointAccountedFor | internal/prover/manifest_validate.go:1345-1446 | each accepted checkpoint is the parent L2 state's own or lies on the L1 path that ends at the origin |
| AnchorLinkage.CheckpointsDetermined | internal/prover/manifest_validate.go:1345-1446 | for one proposal and parent state, block numbers leave a single accepted checkpoint list, whatever paths the host sends |
| AnchorLinkage.ForcedPrefixFits | internal/prover/manifest_validate.go:1380-1383 | after an accepted derivation the prefix guard never fires, and every forced checkpoint is at the last anchor |
| AnchorLinkage.LinkageMeaning | internal/prover/manifest_validate.go:1345-1446 | the whole check, both ways: stalled lists are accepted iff every checkpoint is the parent state's; others iff those of the forced blocks are and all others copy the headers of a linked path that ends at the origin |
| Witness.ReverseHeaders | internal/prover/decode.go:619-626 | two indices reverse the headers in place |
| Witness.DecodeWitnessHeaders | internal/prover/decode.go:599-628 | non-empty and all full, or an error; the result is parent first |
| Witness.ValidateReplayWitness | internal/prover/replay.go:536-593 | accepts iff the block is not genesis and its ancestors, oldest first, with the block's header form one linked list |
| Witness.ParentNumberExact | internal/prover/replay.go:536-568 | the block-0 rejection makes the wrapping comparison of numbers exact |
| Witness.WitnessMeaning | internal/prover/replay.go:536-593 | accepted iff not genesis and each ancestor has the parent hash and the number before, from the block down |
| Witness.WitnessesAgree | internal/prover/replay.go:536-593 | any two accepted witnesses for a block agree as far as both reach |
| Witness.ChainContext.constructor | internal/prover/replay.go:694-710 | the loop over addHeader builds both indexes of the ancestor list |
| Witness.ChainContext.GetHeaderByNumber | internal/prover/replay.go:733-739 | through the number index, then by hash |
| Witness.LookupFindsAncestor | internal/prover/replay.go:686-747 | after the witness check, a lookup by number finds exactly the ancestor that many blocks back, modulo 2^64, and nothing else |
| Witness.FindMeaning | internal/prover/replay.go:725-731 | a lookup by hash and number finds a header iff it is an ancestor with that hash and that number |
| Carries.ValidateCarries | internal/prover/aggregate_validate.go:107-141 | accepts iff non-empty, widths fit, one prover, and each carry continues the one before in id, proposal hash, chain, verifier and block hash |
| Carries.ConsecutiveIds | internal/prover/aggregate_validate.go:122-139 | accepted ids are id0, id0+1, ..., all within 48 bits, on one chain and verifier |
| Carries.CarriesMeaning | internal/prover/aggregate_validate.go:107-154 | a list is accepted iff it is one run of proposals: all fields fit, chain, verifier and prover are the first's, ids count up from the first, and proposal and block hashes link |
| Hashing.SubproofHashMeaning | internal/prover/hash.go:28-62 | two carries share a subproof hash iff they agree after masking timestamp and block number to 48 bits |
| Hashing.SubproofHashInjective | internal/prover/hash.go:28-62 | within the enforced widths the subproof hash is injective |
| Hashing.SubproofHashCollides | internal/prover/hash.go:184-186 | outside them it is not |
| Hashing.SubproofReadsBack | internal/prover/hash.go:28-62 | a reader that goes by position through the three nested preimages gets the carry back, masked fields cut |
| Hashing.BuildCommitment | internal/prover/hash.go:120-144 | the loop builds the commitment, exactly for accepted carry lists |
| Hashing.HashCommitment | internal/prover/hash.go:146-170 | the appending loop hashes the head words and three words per transition |
| Hashing.CommitmentRoundTrip | internal/prover/hash.go:146-170 | an ABI decoder that follows the offsets 0x20 and 0xe0 gets the commitment back |
| Hashing.CommitmentWordsInjective | internal/prover/hash.go:146-170 | the word list is injective over any number of transitions |
| Hashing.HashAggregation | internal/prover/hash.go:84-102 | the aggregate hash, exactly for accepted carry lists |
| Hashing.AggregateReadsBack | internal/prover/hash.go:84-170 | a reader of the aggregate's preimages gets chain, verifier, commitment and instance back |
| Hashing.CommitmentMeaning | internal/prover/hash.go:120-144 | the commitment's start is the first carry's, its end the last one's, and it has one step per carry with that carry's proposer, timestamp and block hash |
| Hashing.DomainsDisjoint | internal/prover/hash.go:28-102 | the 3-, 4-, 5-, 11- and (9+3n)-word preimages never collide |
| Hashing.SubproofIsNoAggregate | internal/prover/hash.go:28-102 | no subproof hash is an aggregate hash |
| Hashing.AggregateHashCommits | internal/prover/hash.go:84-170 | equal aggregate hashes mean equal length, instance, chain, verifier and prover, and at every position equal id, proposer, timestamp, parent block and last block |
| Hashing.IdealHashExists | internal/prover/hash.go:172-178 | the assumption of an injective hash on word lists can be met |
| BlockReplay.Execute | internal/prover/replay.go:56-121 | an Unzen block runs through the replay loop on its witness's start state against its header's difficulty, any other through the library's processor |
| RequestMeaning.ExecutedMeaning | internal/prover/replay.go:56-121 | a block executes to a result iff, as an Unzen block, a trace leads through its body from the state that its witness opens and settles to the result, or the library gives it for any other block |
| ManifestBinding.FilterManifestTransactions | internal/prover/manifest_tx_filter.go:89-134 | runs the candidate selection and the mutating filter on the block's own witness state, behind the block's own anchor |
| ManifestBinding.ValidateBlockBinding | internal/prover/manifest_validate.go:713-763 | a block is bound iff its body's root is that of the filter's output, its header carries the derived metadata, and its anchor transaction writes the derived anchor's checkpoint |
| ManifestBinding.BindBlocks | internal/prover/manifest_validate.go:198-217 | the loop binds every block to its own predecessor, the first to the proposal's parent, and collects the checkpoints |
| BindingMeaning.BoundMeaning | internal/prover/manifest_validate.go:713-763 | a block is bound with a checkpoint iff its time, coinbase, gas limit, extra data and mix digest are those derived, it obeys the header rules, its body root is the filter's, and its anchor writes that checkpoint at the derived number within 48 bits |
| BindingMeaning.AllBoundMeaning | internal/prover/manifest_validate.go:198-217 | all blocks are bound iff each fits on the header before it, the first on the proposal's parent and grandparent |
| ManifestBinding.ValidateManifestBinding | internal/prover/manifest_validate.go:84-223 | accepts iff the sources derive, every block is bound to its derived block, the anchors are accepted and the checkpoints are linked to L1 |
| ManifestBinding.ValidateGuestInput | internal/prover/validate.go:35-44 | accepts iff the guest input decodes within its widths, the carry describes its proposal, and the manifest binding holds |
| BindingMeaning.GuestInputMeaning | internal/prover/manifest_validate.go:84-223 | a guest input is accepted iff a binding exists: its widths, the carry's fields, the parent's hash, the sources' derivation, every block's fit, and the checkpoints' links |
| Requests.ValidateBlockViews | internal/prover/validate.go:154-206 | accepts iff views link by number and hash from the carry's parent block to its checkpoint |
| RequestMeaning.ViewsMeaning | internal/prover/validate.go:154-206 | views are accepted iff numbers and hashes follow one another from the carry's parent hash to all three checkpoint fields |
| Requests.ValidatedRequest.Seal | internal/prover/validate.go:72-81 | the sealed copy is the current content, which stays |
| Requests.ValidatedRequest.ValidateSigningBinding | internal/prover/validate.go:83-115 | accepts iff sealed and every part equals the sealed copy |
| Requests.ValidateRequest | internal/prover/validate.go:24-70 | a request is sealed iff everything decodes, the widths fit, the guest input is bound to its proposal and the views meet the carry |
| SigningService.ReplayAnchoredEvent | internal/prover/replay.go:490-526 | both anchors iff there is exactly one event and it is well-formed |
| SigningService.ReplayAnchorTransition | internal/prover/replay.go:470-488 | only from a successful first receipt |
| RequestMeaning.EventMeaning | internal/prover/replay.go:490-526 | two anchors are reported iff one log of the address and topic exists, with no other topic, 96 data bytes and both words within 48 bits, in this order |
| SigningService.MatchesView | internal/prover/replay.go:381-423 | the decoded block equals its view in all five fields |
| SigningService.ReplayOne | internal/prover/replay.go:323-355 | one block: view, witness, body, execution without the claimed roots, then both roots |
| SigningService.ReplayAll | internal/prover/replay.go:322-372 | the loop with its running anchor accepts iff every block replays and the anchor events continue from the host's last anchor |
| SigningService.ReplayService.Prove | internal/prover/replay.go:297-379 | signs iff the request is unchanged since validation and all checks hold; the ledger gains exactly this subproof hash |
| RequestMeaning.BlockMeaning | internal/prover/replay.go:323-355 | a block replays iff its view is its header's, its witness is linked, its body has the header's root, and its execution gives the header's own state root and receipts root |
| RequestMeaning.ProveMeaning | internal/prover/replay.go:297-379 | a sealed request is signed iff its chain is known, its views lead from parent to checkpoint, every block replays, and the anchor events lead on from the host's last anchor |
| SigningService.ReplayService.ValidateAggregateSignatures | internal/prover/aggregate.go:64-110 | accepts iff every proof has its carry's hash, this instance's id and address, and a signature that recovers to it |
| SigningService.ReplayService.Aggregate | internal/prover/aggregate.go:12-62 | signs iff enabled, validated, the carries form a run and every proof is this instance's own; the ledger gains exactly the aggregate hash |
| AggregateMeaning.AggregatedMeaning | internal/prover/aggregate.go:12-110 | proofs are aggregated iff their carries are one run of proposals and each has its carry's hash, this instance's id and address, and this instance's issued signature over that hash |
| SigningService.ValidateAggregateRequest | internal/prover/aggregate_validate.go:12-105 | accepts iff every proof decodes with its carry's hash, the carries form a run on a known chain, and all name one instance |
| AggregateMeaning.AggregateRequestMeaning | internal/prover/aggregate_validate.go:12-105 | a request passes iff it decodes to proofs of one run, of one instance, on a known chain |
| SigningService.Ledger.Sign | internal/prover/signer.go:156-209 | a legal event keeps the ledger a run, and its issued signatures are those of its events |
| SigningProperties.IssuedBy | internal/prover/signer.go:156-209 | over every run, every issued signature stems from an event |
| SigningProperties.SubproofSignatureMeansProved | internal/prover/aggregate.go:64-110 | a subproof signature over a carry of proper width can only stem from an accepted Prove of that carry by that instance |
| SigningProperties.AggregatedCarriesWereProved | internal/prover/aggregate.go:12-110 | over every run of any instances, each carry inside a signed aggregate was signed before by an accepted Prove of the same instance |
| SigningProperties.AggregatableMeaning | internal/prover/aggregate.go:12-110 | an instance can aggregate exactly the well-formed carry lists that it proved |
| SigningProperties.BlockExecuted | internal/prover/replay.go:323-355 | each block of a proved request was executed on a parent with the named hash and the number before it, and gave its own roots |
| SigningProperties.RequestIsOneChain | internal/prover/replay.go:297-379 | the blocks of a proved request are one executed chain from the carry's parent block to its checkpoint |
| SigningProperties.ProposalsAreOneChain | internal/prover/aggregate_validate.go:107-141 | so are the concatenated blocks of an accepted list: numbers and hashes link across proposals |
| SigningProperties.ProvedListIsOneRun | internal/prover/hash.go:120-144 | numbers are contiguous, ids consecutive, proposal hashes linked, and the commitment names the chain's start and end, the prover, and each proposal's proposer, time and last block |
| SigningProperties.SignedAggregateIsOneChain | internal/prover/aggregate.go:12-62 | over every run, behind each signed aggregate stands one such chain, proved before by the same instance |
| SigningProperties.AggregateHashDeterminesBlocks | internal/prover/hash.go:84-170 | the signed aggregate hash determines every header of that chain |
| EndToEnd.BlockIsDerived | internal/prover/manifest_validate.go:713-763 | in every proved request, block i has derived block i's time, coinbase and gas limit, the proposal's extra data and mix digest, obeys the header rules on its own predecessors, its body is exactly the filter's output, and its anchor writes the derived anchor's checkpoint |
| EndToEnd.SignableMeaning | internal/prover/replay.go:297-379 | a request can be validated and signed iff its carry fits, its chain is known, its views lead from parent to checkpoint, its blocks replay, and a derivation of its proposal's sources binds it |
| EndToEnd.FilteredNeverTruncated | internal/prover/replay.go:122-228 | an Unzen block whose body is the filter's output replays in full, from the same start to the same pools, and is accepted iff its difficulty is the filter's zk gas |
| EndToEnd.BlockRunsAsFiltered | internal/prover/replay.go:56-106 | so did every Unzen block of every proved request |
| EndToEnd.CheckpointIsLinked | internal/prover/manifest_validate.go:1345-1446 | each of these checkpoints is the parent L2 state's own or the copy of the L1 header at its number below the proposal's origin |
| EndToEnd.StartsOnParent | internal/prover/manifest_validate.go:113-131 | the header that derivation starts from is the one that the first block was executed on |
| EndToEnd.BindingDetermined | internal/prover/manifest_validate.go:84-223 | the host has no choice: two requests bound for one proposal, parent block and parent state have the same derived blocks and the same checkpoints |
| EndToEnd.ContextsMeet | internal/prover/manifest_validate.go:126-175 | consecutive proposals of a signed aggregate meet: each derivation starts from the number, time and gas limit that the one before it left |
| EndToEnd.SignedAggregateIsDerived | internal/prover/aggregate.go:12-62 | over every run, behind each signed aggregate stands one chain, proved before by the same instance, whose every block executed to its own header's roots and is the derived one field by field, part by part of its sources, with the filter's body, zk gas and final state, and a linked checkpoint |
| EndToEnd.AggregateTimesAscend | internal/prover/manifest_validate.go:136-196 | the headers behind a signed aggregate have strictly increasing timestamps, across proposals too, while its blocks counted on top of the first parent's time and the fork times stay below 2^64 |
| KeyInstall.StepKeepsOwn | internal/tee/bootstrap.go:260-301 | every step, failed ones and crashes included, keeps the file system sound and establishes what the process relies on next |
| KeyInstall.StepKeeps | internal/tee/bootstrap.go:260-321 | no step of another process changes the installed key, the metadata that describes it, or a temporary file that it does not own |
| KeyInstall.StepKeepsOther | internal/tee/bootstrap.go:260-321 | so every step keeps what any other process relies on |
| KeyInstall.RunKeepsInv | internal/tee/bootstrap.go:41-115 | so every interleaving of any number of processes does |
| KeyInstall.KeyFileWhole | internal/tee/ego.go:48-80 | the key file is never partial |
| KeyInstall.KeyNeverChanges | internal/tee/ego.go:61-80 | at most one key is ever installed and it never changes; metadata that describes it keeps doing so |
| KeyInstall.CompletedCommandsAgree | cmd/gaiko2/main.go:226-256 | every command that got through its metadata phase leaves, from then on, metadata describing the installed key |
| KeyInstall.EverySmoothRunFinishes | internal/tee/bootstrap.go:41-115 | from any reachable state, every successful run of a process alone finishes within a bounded number of steps |
| KeyInstall.BootstrapRecovers | cmd/gaiko2/main.go:226-256 | after any failures and crashes, every command that then runs undisturbed, whatever it generates, completes with the installed key described, which is the earlier key if there was one |
| KeyInstall.RecoveryExists | cmd/gaiko2/main.go:226-256 | such a run can always be made: no run leaves the installation stuck |
| KeyInstall.FreshInstall | internal/tee/bootstrap.go:41-115 | where no key is installed, a smooth bootstrap installs the key and quote that it generated itself; these two names are new and nothing else changes |
| KeyInstall.CompleteIsKept | cmd/gaiko2/main.go:226-256 | complete metadata of the installed key is kept, quote and all: the bootstrap changes nothing |
| KeyInstall.IncompleteIsRebuilt | cmd/gaiko2/main.go:226-256 | missing, foreign or quoteless metadata is replaced by that of the installed key with the rebuilt quote, and nothing else changes |
| KeyInstall.NoLitter | internal/tee/bootstrap.go:260-321 | as long as no process crashes and clean-up succeeds, every temporary name that a run added belongs to a process still at work, whatever else fails |
| KeyInstall.FailureDooms | internal/tee/bootstrap.go:260-301 | a failed call changes nothing and ends its process's attempt, except iff it only failed to remove a temporary name after another key won |
| KeyInstall.DoomedForever | internal/tee/bootstrap.go:41-115 | such a process never completes |

## Left out

- The EVM, the state database, tries, receipts roots, the EIP-4396 base fee, KZG, RLP, zlib, Keccak and secp256k1: library code; functions of the model's parameters.
- JSON decoding of guest inputs, carries and proofs: parsing; its results are parameters, a failure is `None`.
- ManifestBinding.CarryDescribes: of the carry's equality list only chain, id, proposer and timestamp are written out; proposal hashes, prover, end blocks and blob commitments are `carryRestOk`.
- ManifestBinding.ValidateBlockBinding: base fee, ancestry, difficulty, fork and static header rules are `headerRulesOk`; the anchor transaction's static rules and calldata layout are `anchorCheckpoint`.
- Header static and fork fields, `chainConfigFor`, clone helpers, extra data and oneshot proof layouts: shallow.
- BlockReplay.Execute: non-Unzen replay (`core.StateProcessor`) is library code (`executeOther`); the state and receipts roots, the requests hash and the state validation at the end are `settle`.
- UnzenReplay.ReplayUnzenBlock: the start pools and `requestsOk` stand for the system calls before the loop and the execution requests after it; `Finalize` is not part of this model.
- The witness root comparison: it compares the first header's root with itself.
- Nil headers, logs and receipts: excluded by the decoders and the EVM library; `nil` requests to Prove.
- Context cancellation; logging; the HTTP server; the rest of the command line.
- `--force`, the attestation metadata file, directory creation, and durability beyond the atomic steps.
- The bound of 128 attempts on temporary names: a process may retry any number of times.
- BlobCodec.DecodeElements: the source writes the two inner loops and the reassembly out in one function; here they are methods of their own that share the buffer.
- KeyInstall.RunKeepsInv: the straight-line code of the bootstrap commands is cut into its calls, since what is claimed is about their interleavings; `Step` has one case per call.
- TxFilter.CandidateTransactions: sender recovery is a predicate of the transaction.
- SigningService.ReplayService.Prove: the signer's own errors (an instance id that is not configured) are not modelled.
