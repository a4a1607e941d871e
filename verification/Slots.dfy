// The choice of a slot for a candidate: the first advertised slot that is far enough
// ahead and has room.
module Slots {
  import opened Words
  import opened Environment

  // The comparison with head+1 is on uint64, where head+1 wraps to 0 at the top.
  predicate Qualifies(s: SlotInfo, head: uint64, nBlobs: uint32, gas: uint64) {
    s.slot > Inc64(head) && s.blobsAvailable >= nBlobs && s.gasAvailable >= gas
  }

  // Position i holds the first qualifying element in list order.
  predicate IsFirstFit(slots: seq<SlotInfo>, i: nat, head: uint64, nBlobs: uint32, gas: uint64) {
    && i < |slots|
    && Qualifies(slots[i], head, nBlobs, gas)
    && forall j | 0 <= j < i :: !Qualifies(slots[j], head, nBlobs, gas)
  }

  // The fit in numbers: at least two slots past the head, or any but slot 0 where head+1
  // wraps, with as much room for blobs and gas as is needed.
  ghost predicate Fits(s: SlotInfo, head: uint64, nBlobs: uint32, gas: uint64) {
    && (if head == 0xffff_ffff_ffff_ffff then s.slot >= 1 else s.slot >= head + 2)
    && s.blobsAvailable >= nBlobs
    && s.gasAvailable >= gas
  }

  lemma FirstFitExactly(slots: seq<SlotInfo>, i: nat, head: uint64, nBlobs: uint32, gas: uint64)
    ensures IsFirstFit(slots, i, head, nBlobs, gas) <==>
            && i < |slots| && Fits(slots[i], head, nBlobs, gas)
            && forall j | 0 <= j < i :: !Fits(slots[j], head, nBlobs, gas)
  {
    forall s: SlotInfo
      ensures Qualifies(s, head, nBlobs, gas) <==> Fits(s, head, nBlobs, gas)
    {
      FitsExactly(s, head, nBlobs, gas);
    }
  }

  lemma FitsExactly(s: SlotInfo, head: uint64, nBlobs: uint32, gas: uint64)
    ensures Qualifies(s, head, nBlobs, gas) <==> Fits(s, head, nBlobs, gas)
  {
    if head == 0xffff_ffff_ffff_ffff {
      assert Inc64(head) == 0;
    } else {
      assert Inc64(head) == head + 1;
    }
  }

  // Search by recursion on the list; None is the only sentinel.
  function FirstFit(slots: seq<SlotInfo>, head: uint64, nBlobs: uint32, gas: uint64): (r: Option<nat>)
    ensures r.Some? ==> IsFirstFit(slots, r.value, head, nBlobs, gas)
    ensures r.None? ==> forall i | 0 <= i < |slots| :: !Qualifies(slots[i], head, nBlobs, gas)
  {
    if slots == [] then None
    else if Qualifies(slots[0], head, nBlobs, gas) then Some(0)
    else
      match FirstFit(slots[1..], head, nBlobs, gas)
      case None => assert forall i | 1 <= i < |slots| :: slots[i] == slots[1..][i - 1]; None
      case Some(i) => assert forall j | 1 <= j < i + 1 :: slots[j] == slots[1..][j - 1]; Some(i + 1)
  }

  // The loop uses slot 0 to say that nothing was found. That is sound for every list and
  // every head: a qualifying slot is above an unsigned number, so it is never 0.
  method Search(slots: seq<SlotInfo>, head: uint64, nBlobs: uint32, gas: uint64) returns (r: Result<uint64>)
    ensures r.Ok? ==> exists i: nat :: IsFirstFit(slots, i, head, nBlobs, gas) && slots[i].slot == r.value
    ensures r.Err? <==> forall i | 0 <= i < |slots| :: !Fits(slots[i], head, nBlobs, gas)
  {
    var slot: uint64 := 0;
    ghost var found: Option<nat> := None;
    for i := 0 to |slots|
      invariant found.None? && slot == 0
      invariant forall j | 0 <= j < i :: !Qualifies(slots[j], head, nBlobs, gas) && !Fits(slots[j], head, nBlobs, gas)
    {
      var s := slots[i];
      FitsExactly(s, head, nBlobs, gas);
      if s.slot <= Inc64(head) {
        continue;
      }
      if s.blobsAvailable < nBlobs {
        continue;
      }
      if s.gasAvailable < gas {
        continue;
      }
      slot := s.slot;
      found := Some(i);
      assert IsFirstFit(slots, i, head, nBlobs, gas);
      break;
    }
    if slot == 0 {
      return Err("No slots available for transaction");
    }
    assert IsFirstFit(slots, found.value, head, nBlobs, gas);
    return Ok(slot);
  }

  lemma FirstFitUnique(slots: seq<SlotInfo>, i: nat, j: nat, head: uint64, nBlobs: uint32, gas: uint64)
    requires IsFirstFit(slots, i, head, nBlobs, gas) && IsFirstFit(slots, j, head, nBlobs, gas)
    ensures i == j
  {
  }

  // A chosen slot is at least two ahead of the head it was chosen against, exactly when
  // head+1 does not wrap. At the top of the range every advertised slot passes the filter
  // and none is ahead of the head.
  lemma ChosenIsAheadExactly(slots: seq<SlotInfo>, i: nat, head: uint64, nBlobs: uint32, gas: uint64)
    requires IsFirstFit(slots, i, head, nBlobs, gas)
    ensures slots[i].slot >= head + 2 <==> head != TWO_64 - 1
  {
    if head != TWO_64 - 1 {
      assert Inc64(head) == head + 1;
    }
  }

  // At that head a slot long past is taken.
  lemma TopHeadTakesPastSlot(nBlobs: uint32, gas: uint64)
    ensures
      var slots := [SlotInfo(1, gas, nBlobs)];
      IsFirstFit(slots, 0, TWO_64 - 1, nBlobs, gas) && slots[0].slot < TWO_64 - 1
  {
    assert Inc64(TWO_64 - 1) == 0;
  }

  function BlobCount(c: TxCandidate): uint32 {
    Trunc32(|c.blobs|)
  }

  // What getSlotForCandidate concludes from its two remote answers.
  function SlotFor(c: TxCandidate, slots: Result<seq<SlotInfo>>, head: Result<uint64>): Option<SlotInfo> {
    if slots.Err? || head.Err? then None
    else
      match FirstFit(slots.value, head.value, BlobCount(c), c.gasLimit)
      case None => None
      case Some(i) => Some(slots.value[i])
  }

  // No slot can be had: a call failed, or no slot on the list fits.
  ghost predicate NoSlotFits(c: TxCandidate, slots: Result<seq<SlotInfo>>, head: Result<uint64>) {
    || slots.Err? || head.Err?
    || forall i | 0 <= i < |slots.value| :: !Fits(slots.value[i], head.value, |c.blobs| % 0x1_0000_0000, c.gasLimit)
  }

  lemma NoSlotExactly(c: TxCandidate, slots: Result<seq<SlotInfo>>, head: Result<uint64>)
    ensures SlotFor(c, slots, head).None? <==> NoSlotFits(c, slots, head)
  {
    if slots.Ok? && head.Ok? {
      forall i | 0 <= i < |slots.value|
        ensures Qualifies(slots.value[i], head.value, BlobCount(c), c.gasLimit)
                <==> Fits(slots.value[i], head.value, BlobCount(c), c.gasLimit)
      {
        FitsExactly(slots.value[i], head.value, BlobCount(c), c.gasLimit);
      }
    }
  }

  method GetSlotForCandidate(c: TxCandidate, slots: Result<seq<SlotInfo>>, head: Result<uint64>)
    returns (r: Result<uint64>)
    ensures SlotFor(c, slots, head).None? <==> r.Err?
    ensures r.Err? <==> NoSlotFits(c, slots, head)
    ensures r.Ok? ==> SlotFor(c, slots, head).value.slot == r.value
  {
    NoSlotExactly(c, slots, head);
    if slots.Err? {
      return Err(slots.error);
    }
    if head.Err? {
      return Err(head.error);
    }
    r := Search(slots.value, head.value, BlobCount(c), c.gasLimit);
    if r.Ok? {
      ghost var i: nat :|
        IsFirstFit(slots.value, i, head.value, BlobCount(c), c.gasLimit) && slots.value[i].slot == r.value;
      var f := FirstFit(slots.value, head.value, BlobCount(c), c.gasLimit);
      FirstFitUnique(slots.value, i, f.value, head.value, BlobCount(c), c.gasLimit);
    }
  }
}
