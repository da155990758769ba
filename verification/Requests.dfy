/**
 A prove request: what validation decodes and seals, and the check before signing that nothing
 was changed since.
 */
module Requests {
  import opened Wrappers
  import opened Words
  import opened Headers
  import opened Carries
  import opened Environment
  import ManifestBinding

  datatype BlockView = BlockView(number: u64, hash: Word, parentHash: Word, stateRoot: Word, receiptsRoot: Word)

  function ViewOf(h: Header, hashOf: HeaderHash): BlockView {
    BlockView(h.number, hashOf(h), h.parentHash, h.root, h.receiptsRoot)
  }

  /** What a request says, apart from its seal. */
  datatype Content = Content(carry: Carry, views: seq<BlockView>, raws: seq<RawBlock>, guestInput: Option<Taiko>)

  // ---------- Block views against the carry ----------

  predicate ViewAfter(views: seq<BlockView>, i: nat)
    requires 0 < i < |views|
  {
    views[i].number == WrapAdd(views[i - 1].number, 1) && views[i].parentHash == views[i - 1].hash
  }

  ghost predicate ViewsOk(views: seq<BlockView>, carry: Carry) {
    && views != []
    && (forall i: nat :: 0 < i < |views| ==> ViewAfter(views, i))
    && views[0].parentHash == carry.input.parentBlockHash
    && (var last := views[|views| - 1];
        Checkpoint(last.number, last.hash, last.stateRoot) == carry.input.checkpoint)
  }

  method ValidateBlockViews(views: seq<BlockView>, carry: Carry) returns (ok: bool)
    requires views != []
    ensures ok <==> ViewsOk(views, carry)
  {
    for index := 1 to |views|
      invariant forall i: nat :: 0 < i < index ==> ViewAfter(views, i)
    {
      var previous, current := views[index - 1], views[index];
      if current.number != WrapAdd(previous.number, 1) {
        assert !ViewAfter(views, index);
        return false;
      }
      if current.parentHash != previous.hash {
        assert !ViewAfter(views, index);
        return false;
      }
    }
    if views[0].parentHash != carry.input.parentBlockHash {
      return false;
    }
    var last := views[|views| - 1];
    if last.number != carry.input.checkpoint.number {
      return false;
    }
    if last.hash != carry.input.checkpoint.hash {
      return false;
    }
    return last.stateRoot == carry.input.checkpoint.root;
  }

  // ---------- The sealed request ----------

  /** What every validated request has. */
  ghost predicate Accepted(c: Content, m: Machine) {
    && FitsWidths(c.carry)
    && |c.views| == |c.raws|
    && (forall i :: 0 <= i < |c.raws| ==>
          m.decode(c.raws[i]).Some? && c.views[i] == ViewOf(m.decode(c.raws[i]).value.block.header, m.hashOf))
    && ViewsOk(c.views, c.carry)
    && c.guestInput.Some?
    && exists ancestors :: ManifestBinding.GuestInputOk(c.carry, c.raws, c.guestInput.value, ancestors, m)
  }

  class ValidatedRequest {
    var carry: Carry
    var blocks: seq<BlockView>
    var rawBlocks: seq<RawBlock>
    var guestInput: Option<Taiko>

    var validated: bool
    var validatedCarry: Carry
    var validatedBlocks: seq<BlockView>
    var validatedRawBlocks: seq<RawBlock>
    var validatedGuestInput: bool
    var validatedTaiko: Option<Taiko>

    ghost function Current(): Content
      reads this
    {
      Content(carry, blocks, rawBlocks, guestInput)
    }

    ghost function Sealed(): Content
      reads this
    {
      Content(validatedCarry, validatedBlocks, validatedRawBlocks, if validatedGuestInput then validatedTaiko else None)
    }

    /** Only validation seals; everything public may have changed since. */
    ghost predicate SealIntact(m: Machine)
      reads this
    {
      && (validated ==> Accepted(Sealed(), m))
      && (validatedGuestInput ==> validatedTaiko.Some?)
    }

    constructor (c: Content)
      ensures Current() == c && !validated && !validatedGuestInput
    {
      carry, blocks, rawBlocks, guestInput := c.carry, c.views, c.raws, c.guestInput;
      validated, validatedCarry, validatedBlocks, validatedRawBlocks := false, c.carry, [], [];
      validatedGuestInput, validatedTaiko := false, None;
    }

    method Seal()
      modifies this
      ensures Current() == old(Current()) && validated && Sealed() == Current()
      ensures validatedGuestInput ==> validatedTaiko.Some?
    {
      validated := true;
      validatedCarry := carry;
      validatedBlocks := blocks;
      validatedRawBlocks := rawBlocks;
      validatedGuestInput := guestInput.Some?;
      if validatedGuestInput {
        validatedTaiko := guestInput;
      }
    }

    method ValidateSigningBinding() returns (ok: bool)
      requires validatedGuestInput ==> validatedTaiko.Some?
      ensures ok <==> validated && Current() == Sealed()
    {
      if !validated {
        return false;
      }
      if carry != validatedCarry {
        return false;
      }
      if |blocks| != |validatedBlocks| {
        return false;
      }
      for index := 0 to |blocks|
        invariant forall i :: 0 <= i < index ==> blocks[i] == validatedBlocks[i]
      {
        if blocks[index] != validatedBlocks[index] {
          return false;
        }
      }
      if |rawBlocks| != |validatedRawBlocks| {
        return false;
      }
      for index := 0 to |rawBlocks|
        invariant forall i :: 0 <= i < index ==> rawBlocks[i] == validatedRawBlocks[i]
      {
        if rawBlocks[index] != validatedRawBlocks[index] {
          return false;
        }
      }
      if guestInput.Some? != validatedGuestInput {
        return false;
      }
      return !(guestInput.Some? && guestInput.value != validatedTaiko.value);
    }
  }

  method DecodeViews(raws: seq<RawBlock>, m: Machine) returns (r: Option<seq<BlockView>>)
    ensures r.Some? <==> forall i :: 0 <= i < |raws| ==> m.decode(raws[i]).Some?
    ensures r.Some? ==> r.value == Views(raws, m)
  {
    var blocks: seq<BlockView> := [];
    for i := 0 to |raws|
      invariant forall j :: 0 <= j < i ==> m.decode(raws[j]).Some?
      invariant blocks == Views(raws[..i], m)
    {
      match m.decode(raws[i])
      case None => return None;
      case Some(replay) => blocks := blocks + [ViewOf(replay.block.header, m.hashOf)];
      assert raws[..i + 1][..i] == raws[..i];
    }
    assert raws[..|raws|] == raws;
    return Some(blocks);
  }

  /** carry is None when it does not decode, which includes any of its widths being exceeded. */
  method ValidateRequest(carry: Option<Carry>, raws: seq<RawBlock>, guestInput: Option<Taiko>,
                         ancestors: ProposalAncestors, m: Machine)
    returns (r: Option<ValidatedRequest>)
    ensures r.Some? <==>
            && carry.Some? && FitsWidths(carry.value) && raws != [] && guestInput.Some?
            && (forall i :: 0 <= i < |raws| ==> m.decode(raws[i]).Some?)
            && ManifestBinding.GuestInputOk(carry.value, raws, guestInput.value, ancestors, m)
            && ViewsOk(Views(raws, m), carry.value)
    ensures r.Some? ==> fresh(r.value) && r.value.validated && r.value.SealIntact(m)
    ensures r.Some? ==> r.value.Current() == r.value.Sealed()
    ensures r.Some? ==> r.value.carry == carry.value && r.value.rawBlocks == raws
  {
    hide ManifestBinding.GuestInputOk;
    if guestInput.None? || |raws| == 0 {
      return None;
    }
    var views := DecodeViews(raws, m);
    if views.None? {
      return None;
    }
    var blocks := views.value;
    if carry.None? || !FitsWidths(carry.value) {
      return None;
    }
    var ok := ManifestBinding.ValidateGuestInput(carry.value, raws, guestInput.value, ancestors, m);
    if !ok {
      return None;
    }
    ok := ValidateBlockViews(blocks, carry.value);
    if !ok {
      return None;
    }
    var validated := new ValidatedRequest(Content(carry.value, blocks, raws, guestInput));
    validated.Seal();
    return Some(validated);
  }

  /** The views of the raw blocks that decode. */
  function Views(raws: seq<RawBlock>, m: Machine): (v: seq<BlockView>)
    ensures (forall i :: 0 <= i < |raws| ==> m.decode(raws[i]).Some?) ==>
              |v| == |raws| &&
              forall i :: 0 <= i < |raws| ==> v[i] == ViewOf(m.decode(raws[i]).value.block.header, m.hashOf)
  {
    if raws == [] then []
    else
      var front, last := Views(raws[..|raws| - 1], m), m.decode(raws[|raws| - 1]);
      if last.Some? then front + [ViewOf(last.value.block.header, m.hashOf)] else front
  }
}
