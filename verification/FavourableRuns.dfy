// An environment in which every call succeeds and one slot is on offer, and what a call of
// Send makes of it: witnesses for what can happen.
module FavourableRuns {
  import opened Words
  import opened Fees
  import opened Preimages
  import opened Environment
  import opened Slots
  import opened Signing
  import opened SendMachine

  ghost function Generous(offer: SlotInfo): Replies {
    var zero: Hash := seq(32, i => 0);
    var id: Uuid := seq(16, i => 0);
    var header := Header(10_000_000_000, Fullness(15_000_000, 30_000_000), Some(0));
    Replies(false, Ok([zero]), Ok(21_000), Ok(100), Ok(header), 1, Ok(7), Ok(zero),
            Ok([offer]), Ok(100), Ok((1_000_000_000, 1)), Ok(id), Ok(()), Ok([]))
  }

  // The offer is ahead of the head and has the room that the slot filter looks for.
  ghost predicate Suits(offer: SlotInfo, c: TxCandidate) {
    Qualifies(offer, 100, BlobCount(c), c.gasLimit)
  }

  // A slot with room for every candidate.
  ghost function Roomy(c: TxCandidate): SlotInfo {
    SlotInfo(105, TWO_64 - 1, BlobCount(c))
  }

  ghost predicate Prepared(t: Thread, c: TxCandidate) {
    && t.status == Running && t.stage.Choosing? && t.candidate == c
    && t.tx.Some? && t.tx.value.content.gas == (if c.gasLimit == 0 then 21_000 else c.gasLimit)
    && t.trace == [Signed(t.tx.value)]
  }

  // The first two steps of a call craft and sign, whatever the counter is.
  lemma GenerousPreparation(c: TxCandidate, offer: SlotInfo, nonce: Option<uint64>) returns (t1: Thread, t2: Thread)
    requires !Uncraftable(c)
    ensures Prepared(t2, c) && t2.tx.value.content.nonce == if nonce.None? then 7 else Inc64(nonce.value)
    ensures Step(Start(c), nonce, Generous(offer)) == Move(t1, nonce, None, None)
    ensures Step(t1, nonce, Generous(offer)) ==
            Move(t2, Some(t2.tx.value.content.nonce), if nonce.None? then Some(7) else None, t2.tx)
  {
    var r := Generous(offer);
    var m := Craft(c, r).value;
    t1 := Start(c).(stage := AwaitingSignature(0, m));
    var s := Sign(nonce, m, r);
    SignConsumesExactlyOnSuccess(nonce, m, r);
    t2 := Record(t1, Signed(s.tx.value), Choosing).(tx := Some(s.tx.value));
  }

  // The offer is taken wherever a call chooses.
  lemma OfferIsTaken(c: TxCandidate, offer: SlotInfo)
    requires Suits(offer, c)
    ensures SlotFor(c, Generous(offer).slots, Generous(offer).head) == Some(offer)
  {
  }

  // The next three choose the slot, quote it and reserve it.
  lemma GenerousRound(t: Thread, c: TxCandidate, offer: SlotInfo, nonce: Option<uint64>)
    returns (t3: Thread, t4: Thread, t5: Thread)
    requires Prepared(t, c) && Suits(offer, c)
    ensures Step(t, nonce, Generous(offer)) == Move(t3, nonce, None, None)
    ensures Step(t3, nonce, Generous(offer)) == Move(t4, nonce, None, None)
    ensures Step(t4, nonce, Generous(offer)) == Move(t5, nonce, None, None)
    ensures t5.status == Running && t5.stage.Submitting? && t5.stage.slot == offer.slot && t5.tx == t.tx
    ensures |t5.trace| == 4 && t5.trace[0].Signed? && t5.trace[1] == Chosen(100, [offer], offer)
    ensures t5.trace[3].Reserved? && t5.trace[3].req.gasLimit == t.tx.value.content.gas
  {
    var r := Generous(offer);
    OfferIsTaken(c, offer);
    t3 := Record(t, Chosen(100, [offer], offer), Quoting(offer.slot));
    t4 := Record(t3, Quoted(offer.slot, 1_000_000_000, 1), Reserving(offer.slot, 1_000_000_000, 1));
    var req := RequestFor(c, t.tx.value, offer.slot, 1_000_000_000, 1);
    t5 := Record(t4, Reserved(req, r.reserve.value), Submitting(offer.slot, r.reserve.value));
  }

  // Where slot+1 wraps, the last three submit, poll once and look up the receipt.
  lemma GenerousEnd(t: Thread, offer: SlotInfo, nonce: Option<uint64>) returns (t6: Thread, t7: Thread, t8: Thread)
    requires t.status == Running && t.stage.Submitting? && t.tx.Some? && t.stage.slot == offer.slot == TWO_64 - 1
    ensures Step(t, nonce, Generous(offer)) == Move(t6, nonce, None, None)
    ensures Step(t6, nonce, Generous(offer)) == Move(t7, nonce, None, None)
    ensures Step(t7, nonce, Generous(offer)) == Move(t8, nonce, None, None)
    ensures t8.status.Returned? && |t8.trace| == |t.trace| + 3 && t.trace < t8.trace
    ensures t8.trace[|t8.trace| - 2] == SawHead(100)
  {
    var tx := t.tx.value;
    t6 := Record(t, Submitted(t.stage.id, tx), Waiting(offer.slot));
    t7 := Record(t6, SawHead(100), Fetching(offer.slot));
    t8 := Record(t7, LookedUp(tx.hash), Finished).(status := Returned(Ok([])));
  }

  lemma RunContinues(c: TxCandidate, script: seq<Replies>, t: Thread, nonce: Option<uint64>, r: Replies, u: Thread)
    requires Run(c, None, script) == (t, nonce)
    requires Step(t, nonce, r).thread == u && Step(t, nonce, r).nonce == nonce
    ensures Run(c, None, script + [r]) == (u, nonce)
  {
    assert (script + [r])[..|script|] == script;
  }

  lemma PreparedRun(c: TxCandidate, offer: SlotInfo) returns (t: Thread)
    requires !Uncraftable(c)
    ensures Run(c, None, [Generous(offer), Generous(offer)]) == (t, Some(7))
    ensures Prepared(t, c)
  {
    var r := Generous(offer);
    var t1, t2 := GenerousPreparation(c, offer, None);
    assert Run(c, None, []) == (Start(c), None);
    RunContinues(c, [], Start(c), None, r, t1);
    assert [] + [r] == [r] && [r, r][..1] == [r];
    t := t2;
  }

  // The run of a call up to its first submission.
  lemma RoundRun(c: TxCandidate, offer: SlotInfo) returns (script: seq<Replies>, t: Thread)
    requires !Uncraftable(c) && Suits(offer, c)
    ensures Run(c, None, script) == (t, Some(7))
    ensures t.status == Running && t.stage.Submitting? && t.stage.slot == offer.slot && t.tx.Some?
    ensures |t.trace| == 4 && t.trace[0].Signed? && t.trace[1] == Chosen(100, [offer], offer) && t.trace[3].Reserved?
    ensures t.trace[3].req.gasLimit == if c.gasLimit == 0 then 21_000 else c.gasLimit
  {
    var r := Generous(offer);
    var t2 := PreparedRun(c, offer);
    var t3, t4, t5 := GenerousRound(t2, c, offer, Some(7));
    script := [r, r];
    RunContinues(c, script, t2, Some(7), r, t3);
    RunContinues(c, script + [r], t3, Some(7), r, t4);
    RunContinues(c, script + [r] + [r], t4, Some(7), r, t5);
    script, t := script + [r] + [r] + [r], t5;
  }

  // The run of a call for slot 2^64-1, at head 100.
  lemma TopSlotRun(c: TxCandidate) returns (script: seq<Replies>, t: Thread)
    requires !Uncraftable(c)
    ensures Run(c, None, script).0 == t && t.status.Returned?
    ensures |t.trace| == 7 && t.trace[0].Signed? && t.trace[5] == SawHead(100)
    ensures t.trace[1].Chosen? && t.trace[1].info.slot == TWO_64 - 1
  {
    var offer := SlotInfo(TWO_64 - 1, TWO_64 - 1, BlobCount(c));
    var r := Generous(offer);
    var t5;
    script, t5 := RoundRun(c, offer);
    var t6, t7, t8 := GenerousEnd(t5, offer, Some(7));
    RunContinues(c, script, t5, Some(7), r, t6);
    RunContinues(c, script + [r], t6, Some(7), r, t7);
    RunContinues(c, script + [r] + [r], t7, Some(7), r, t8);
    script, t := script + [r] + [r] + [r], t8;
  }

  // From any stage of a round the next step leads on towards the submission.
  lemma GenerousStep(t: Thread, nonce: Option<uint64>) returns (u: Thread)
    requires t.status == Running && t.tx.Some? && Position(t.stage) < 4
    ensures Step(t, nonce, Generous(Roomy(t.candidate))) == Move(u, nonce, None, None)
    ensures u.status == Running && u.tx == t.tx && u.candidate == t.candidate
    ensures Position(u.stage) == Position(t.stage) + 1
  {
    var r := Generous(Roomy(t.candidate));
    OfferIsTaken(t.candidate, Roomy(t.candidate));
    u := PreconfStep(t, t.tx.value, r);
  }
}
