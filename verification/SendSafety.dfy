// What every run of Send guarantees, derived from the links between consecutive events.
// All statements are about any thread in the invariant, hence about every reachable state
// of one call alone and of any number of interleaved calls.
module SendSafety {
  import opened Words
  import opened LittleEndian
  import opened Fees
  import opened Uint256
  import opened Preimages
  import opened Environment
  import opened Slots
  import opened Signing
  import opened SendMachine
  import opened FavourableRuns

  // ---------------------------------------------------------------- whole-run safety

  lemma LinkedPrefix(c: TxCandidate, tx: Tx, trace: seq<Event>, n: nat)
    requires Linked(c, tx, trace) && n <= |trace|
    ensures Linked(c, tx, trace[..n])
  {
    forall i | 0 <= i < n
      ensures MayFollow(c, tx, trace[..n][..i], trace[..n][i])
    {
      assert trace[..n][..i] == trace[..i] && trace[..n][i] == trace[i];
      assert MayFollow(c, tx, trace[..i], trace[i]);
    }
  }

  // The four events of a successful round, starting at position i.
  ghost predicate RoundAt(c: TxCandidate, tx: Tx, trace: seq<Event>, i: nat) {
    && i + 3 < |trace|
    && IsChoice(c, trace[i])
    && trace[i + 1].Quoted? && trace[i + 1].slot == trace[i].info.slot
    && trace[i + 2].Reserved?
    && trace[i + 2].req == RequestFor(c, tx, trace[i].info.slot, trace[i + 1].gasPrice, trace[i + 1].blobPrice)
    && trace[i + 3] == Submitted(trace[i + 2].id, tx)
  }

  // Walking back from a submission finds the round it completes.
  lemma RoundBehind(c: TxCandidate, tx: Tx, trace: seq<Event>) returns (i: nat)
    requires Linked(c, tx, trace) && trace != [] && trace[|trace| - 1].Submitted?
    ensures i + 4 == |trace| && RoundAt(c, tx, trace, i)
    ensures LastSlot(trace) == Some(trace[i].info.slot)
  {
    var n := |trace|;
    assert MayFollow(c, tx, trace[..n - 1], trace[n - 1]);
    assert MayFollow(c, tx, trace[..n - 2], trace[n - 2]);
    assert MayFollow(c, tx, trace[..n - 3], trace[n - 3]);
    assert MayFollow(c, tx, trace[..n - 4], trace[n - 4]);
    i := n - 4;
    LastSlotAppend(trace[..n - 4], trace[n - 4]);
    LastSlotAppend(trace[..n - 3], trace[n - 3]);
    LastSlotAppend(trace[..n - 2], trace[n - 2]);
    LastSlotAppend(trace[..n - 1], trace[n - 1]);
    assert trace[..n - 4] + [trace[n - 4]] == trace[..n - 3];
    assert trace[..n - 3] + [trace[n - 3]] == trace[..n - 2];
    assert trace[..n - 2] + [trace[n - 2]] == trace[..n - 1];
    assert trace[..n - 1] + [trace[n - 1]] == trace;
  }

  // From position i+4 on there are only observed heads, all but the last before the slot.
  ghost predicate PollsFrom(trace: seq<Event>, i: nat, slot: uint64) {
    && (forall j | i + 4 <= j < |trace| :: trace[j].SawHead?)
    && (forall j | i + 4 <= j < |trace| - 1 :: trace[j].head < Inc64(slot))
  }

  lemma {:induction false} PollsBehind(c: TxCandidate, tx: Tx, trace: seq<Event>) returns (i: nat)
    requires Linked(c, tx, trace) && trace != []
    requires trace[|trace| - 1].Submitted? || trace[|trace| - 1].SawHead?
    ensures RoundAt(c, tx, trace, i)
    ensures LastSlot(trace) == Some(trace[i].info.slot) && PollsFrom(trace, i, trace[i].info.slot)
    decreases |trace|
  {
    var n := |trace|;
    var last := trace[n - 1];
    if last.Submitted? {
      i := RoundBehind(c, tx, trace);
    } else {
      assert MayFollow(c, tx, trace[..n - 1], last);
      LinkedPrefix(c, tx, trace, n - 1);
      i := PollsBehind(c, tx, trace[..n - 1]);
      assert forall j | 0 <= j < n - 1 :: trace[..n - 1][j] == trace[j];
    }
  }

  // The end of a successful call: from position i on, a slot chosen by first fit, a fee
  // quoted for that slot, a reservation for that slot with half the quoted price as deposit
  // and tip, a submission of the signed transaction under that reservation's id, heads
  // observed until one is at or past slot+1, and the lookup of that transaction's hash.
  ghost predicate EndsWell(t: Thread, i: nat) {
    var n := |t.trace|;
    && t.tx.Some?
    && i + 6 <= n
    && RoundAt(t.candidate, t.tx.value, t.trace, i)
    && PollsFrom(t.trace[..n - 1], i, t.trace[i].info.slot)
    && t.trace[n - 2].head >= Inc64(t.trace[i].info.slot)
    && t.trace[n - 1] == LookedUp(t.tx.value.hash)
  }

  lemma LookupEndsWell(c: TxCandidate, tx: Tx, trace: seq<Event>) returns (i: nat)
    requires Linked(c, tx, trace) && trace != [] && trace[|trace| - 1].LookedUp?
    ensures i + 6 <= |trace| && RoundAt(c, tx, trace, i)
    ensures PollsFrom(trace[..|trace| - 1], i, trace[i].info.slot)
    ensures trace[|trace| - 2].SawHead? && trace[|trace| - 2].head >= Inc64(trace[i].info.slot)
    ensures trace[|trace| - 1] == LookedUp(tx.hash)
  {
    var n := |trace|;
    assert MayFollow(c, tx, trace[..n - 1], trace[n - 1]);
    LinkedPrefix(c, tx, trace, n - 1);
    i := PollsBehind(c, tx, trace[..n - 1]);
    assert forall j | 0 <= j < n - 1 :: trace[..n - 1][j] == trace[j];
  }

  lemma ReturnedCallEndsWell(t: Thread) returns (i: nat)
    requires Inv(t) && t.status.Returned?
    ensures EndsWell(t, i)
  {
    i := LookupEndsWell(t.candidate, t.tx.value, t.trace);
  }

  lemma ReturnedRunEndsWell(c: TxCandidate, nonce: Option<uint64>, script: seq<Replies>) returns (i: nat)
    ensures Run(c, nonce, script).0.status.Returned? ==> EndsWell(Run(c, nonce, script).0, i)
  {
    i := 0;
    RunKeepsInv(Start(c), nonce, script);
    if Run(c, nonce, script).0.status.Returned? {
      i := ReturnedCallEndsWell(Run(c, nonce, script).0);
    }
  }

  // The head at exit is at least three past the head at selection when neither head+1 nor
  // slot+1 wraps. At slot 2^64-1 the wrapped bound is 0, which every head meets.
  lemma ExitHeadIsThreeLater(t: Thread, i: nat)
    requires EndsWell(t, i)
    requires t.trace[i].head != TWO_64 - 1 && t.trace[i].info.slot != TWO_64 - 1
    ensures t.trace[|t.trace| - 2].head >= t.trace[i].head + 3
  {
    var e := t.trace[i];
    var k: nat :| IsFirstFit(e.slots, k, e.head, BlobCount(t.candidate), t.candidate.gasLimit) && e.slots[k] == e.info;
    ChosenIsAheadExactly(e.slots, k, e.head, BlobCount(t.candidate), t.candidate.gasLimit);
  }

  lemma IncAtTop(x: uint64)
    ensures Inc64(x) == if x == TWO_64 - 1 then 0 else x + 1
  {
  }

  // The head at exit is past the slot exactly when slot+1 does not wrap.
  lemma ExitHeadIsPastSlotExactly(t: Thread, i: nat)
    requires EndsWell(t, i)
    ensures t.trace[|t.trace| - 2].head > t.trace[i].info.slot <==> t.trace[i].info.slot != TWO_64 - 1
  {
    IncAtTop(t.trace[i].info.slot);
  }

  // At slot 2^64-1 a call ends well with its first poll, at head 100.
  lemma TopSlotEndsAtOnce(c: TxCandidate) returns (script: seq<Replies>)
    requires !Uncraftable(c)
    ensures var t := Run(c, None, script).0;
            EndsWell(t, 1) && t.trace[1].info.slot == TWO_64 - 1 && t.trace[|t.trace| - 2].head == 100
  {
    var t;
    script, t := TopSlotRun(c);
    RunKeepsInv(Start(c), None, script);
    var i := ReturnedCallEndsWell(t);
    assert i <= 1 && t.trace[0].Signed?;
  }

  // ---------------------------------------------------------------- conservation

  ghost function Reservations(trace: seq<Event>): nat {
    if trace == [] then 0
    else Reservations(trace[..|trace| - 1]) + if trace[|trace| - 1].Reserved? then 1 else 0
  }

  ghost function Submissions(trace: seq<Event>): nat {
    if trace == [] then 0
    else Submissions(trace[..|trace| - 1])
         + if trace[|trace| - 1].Submitted? || trace[|trace| - 1].NotSubmitted? then 1 else 0
  }

  ghost function Acceptances(trace: seq<Event>): nat {
    if trace == [] then 0
    else Acceptances(trace[..|trace| - 1]) + if trace[|trace| - 1].Submitted? then 1 else 0
  }

  ghost predicate AfterAcceptance(trace: seq<Event>) {
    trace != [] && var last := trace[|trace| - 1]; last.Submitted? || last.SawHead? || last.LookedUp?
  }

  lemma {:induction false} TraceBalance(c: TxCandidate, tx: Tx, trace: seq<Event>)
    requires Linked(c, tx, trace)
    ensures Reservations(trace) == Submissions(trace) + if trace != [] && trace[|trace| - 1].Reserved? then 1 else 0
    ensures Acceptances(trace) == if AfterAcceptance(trace) then 1 else 0
    decreases |trace|
  {
    var n := |trace|;
    if n > 0 {
      assert MayFollow(c, tx, trace[..n - 1], trace[n - 1]);
      LinkedPrefix(c, tx, trace, n - 1);
      TraceBalance(c, tx, trace[..n - 1]);
    }
  }

  // Every successful reservation is answered by one submission attempt, except the one held
  // between the two calls. From the wait phase on, exactly one submission was accepted.
  lemma ReservationsAreConserved(t: Thread)
    requires Inv(t)
    ensures Reservations(t.trace) == Submissions(t.trace) + if t.stage.Submitting? then 1 else 0
    ensures
      var waiting := t.stage.Waiting? || t.stage.Fetching? || t.stage.Finished?;
      && Acceptances(t.trace) == (if waiting then 1 else 0)
      && (waiting ==> Reservations(t.trace) == (Submissions(t.trace) - Acceptances(t.trace)) + 1)
  {
    if t.tx.Some? {
      TraceBalance(t.candidate, t.tx.value, t.trace);
    }
  }

  ghost predicate SubmitsUnder(e: Event, id: Uuid) {
    (e.Submitted? || e.NotSubmitted?) && e.id == id
  }

  // Every submission carries the one signed transaction, with the candidate's payload, under
  // the id of the reservation made just before it for exactly that transaction's gas.
  lemma SubmissionsUseTheirReservation(t: Thread, i: nat)
    requires Inv(t) && i < |t.trace| && (t.trace[i].Submitted? || t.trace[i].NotSubmitted?)
    ensures t.tx == Some(t.trace[i].tx)
    ensures i > 0 && t.trace[i - 1].Reserved? && t.trace[i - 1].id == t.trace[i].id
    ensures t.trace[i - 1].req.gasLimit == t.trace[i].tx.content.gas
    ensures Carries(t.candidate, t.trace[i].tx.content)
  {
    assert MayFollow(t.candidate, t.tx.value, t.trace[..i], t.trace[i]);
    assert MayFollow(t.candidate, t.tx.value, t.trace[..i - 1], t.trace[i - 1]);
  }

  // If the gateway never repeats an id, no id is submitted twice.
  lemma NoIdSubmittedTwice(t: Thread, i: nat, j: nat, id: Uuid)
    requires Inv(t)
    requires forall a, b | 0 <= a < b < |t.trace| && t.trace[a].Reserved? && t.trace[b].Reserved? ::
               t.trace[a].id != t.trace[b].id
    requires i < |t.trace| && j < |t.trace| && SubmitsUnder(t.trace[i], id) && SubmitsUnder(t.trace[j], id)
    ensures i == j
  {
    SubmissionsUseTheirReservation(t, i);
    SubmissionsUseTheirReservation(t, j);
  }

  // ---------------------------------------------------------------- capacity

  ghost predicate Requests(e: Event, req: ReserveBlockSpaceRequest) {
    (e.Reserved? || e.NotReserved?) && e.req == req
  }

  // Each request targets the slot chosen two events earlier, asks for exactly the gas of
  // the signed transaction, and never for more blobs than that slot advertised in that
  // iteration. A non-zero gas limit bounds the gas the same way.
  lemma RequestsFitTheChosenSlot(t: Thread, i: nat, req: ReserveBlockSpaceRequest)
    requires Inv(t) && i < |t.trace| && Requests(t.trace[i], req)
    ensures t.tx.Some? && req.gasLimit == t.tx.value.content.gas
    ensures i >= 2 && IsChoice(t.candidate, t.trace[i - 2])
    ensures var info := t.trace[i - 2].info;
            && info in t.trace[i - 2].slots
            && req.targetSlot == info.slot
            && req.blobCount <= info.blobsAvailable
            && (t.candidate.gasLimit != 0 ==> req.gasLimit <= info.gasAvailable)
    ensures req.blobCount == |t.candidate.blobs| % 0x1_0000_0000
    ensures req.blobCount == |t.candidate.blobs| <==> |t.candidate.blobs| < TWO_32
  {
    assert MayFollow(t.candidate, t.tx.value, t.trace[..i], t.trace[i]);
    assert MayFollow(t.candidate, t.tx.value, t.trace[..i - 1], t.trace[i - 1]);
    assert MayFollow(t.candidate, t.tx.value, t.trace[..i - 2], t.trace[i - 2]);
    var e := t.trace[i - 2];
    var k: nat :| IsFirstFit(e.slots, k, e.head, BlobCount(t.candidate), t.candidate.gasLimit) && e.slots[k] == e.info;
  }

  // Some request asks for more gas than the slot chosen for it advertised.
  ghost predicate Overbooked(trace: seq<Event>) {
    exists i | 2 <= i < |trace| ::
      && (trace[i].Reserved? || trace[i].NotReserved?)
      && trace[i - 2].Chosen?
      && trace[i].req.gasLimit > trace[i - 2].info.gasAvailable
  }

  // The slot filter compares the candidate's gas limit, the request carries the
  // transaction's gas. They differ when the limit is 0 and gas is estimated.
  lemma CapacityIsRespectedExactly(c: TxCandidate)
    ensures c.gasLimit != 0 || Uncraftable(c) <==>
            forall nonce: Option<uint64>, script: seq<Replies> :: !Overbooked(Run(c, nonce, script).0.trace)
  {
    if c.gasLimit != 0 || Uncraftable(c) {
      forall nonce: Option<uint64>, script: seq<Replies>
        ensures !Overbooked(Run(c, nonce, script).0.trace)
      {
        NeverOverbooked(c, nonce, script);
      }
    } else {
      var script := OverbookingRun(c);
    }
  }

  lemma NeverOverbooked(c: TxCandidate, nonce: Option<uint64>, script: seq<Replies>)
    requires c.gasLimit != 0 || Uncraftable(c)
    ensures !Overbooked(Run(c, nonce, script).0.trace)
  {
    var t := Run(c, nonce, script).0;
    RunKeepsInv(Start(c), nonce, script);
    RunKeepsCandidate(Start(c), nonce, script);
    if c.gasLimit == 0 {
      UncraftableNeverSigns(c, nonce, script);
    }
    forall i | 2 <= i < |t.trace| && (t.trace[i].Reserved? || t.trace[i].NotReserved?) && t.trace[i - 2].Chosen?
      ensures t.trace[i].req.gasLimit <= t.trace[i - 2].info.gasAvailable
    {
      RequestsFitTheChosenSlot(t, i, t.trace[i].req);
    }
  }

  lemma {:induction false} RunKeepsCandidate(t: Thread, nonce: Option<uint64>, script: seq<Replies>)
    ensures RunFrom(t, nonce, script).0.candidate == t.candidate
  {
    if script != [] {
      RunKeepsCandidate(t, nonce, script[..|script| - 1]);
    }
  }

  lemma {:induction false} UncraftableNeverSigns(c: TxCandidate, nonce: Option<uint64>, script: seq<Replies>)
    requires Uncraftable(c)
    ensures var t := Run(c, nonce, script).0; t.stage.Crafting? && t.trace == []
    ensures Run(c, nonce, script).1 == nonce
  {
    RunKeepsCandidate(Start(c), nonce, script);
    if script != [] {
      UncraftableNeverSigns(c, nonce, script[..|script| - 1]);
      RunKeepsCandidate(Start(c), nonce, script[..|script| - 1]);
    }
  }

  // One slot is left, with 20,000 gas; the estimate is 21,000.
  lemma OverbookingRun(c: TxCandidate) returns (script: seq<Replies>)
    requires c.gasLimit == 0 && !Uncraftable(c)
    ensures Overbooked(Run(c, None, script).0.trace)
  {
    var t;
    script, t := RoundRun(c, SlotInfo(105, 20_000, BlobCount(c)));
    assert t.trace[3].req.gasLimit > t.trace[3 - 2].info.gasAvailable;
  }

  // ---------------------------------------------------------------- preparation

  // A call that is still preparing has taken one or two steps for each attempt.
  ghost predicate Paced(t: Thread, steps: nat) {
    t.status == Running && t.tx.None? ==>
      && (t.stage.Crafting? ==> t.stage.attempt <= steps <= 2 * t.stage.attempt)
      && (t.stage.AwaitingSignature? ==> t.stage.attempt + 1 <= steps <= 2 * t.stage.attempt + 1)
  }

  lemma StepKeepsPace(t: Thread, nonce: Option<uint64>, r: Replies, steps: nat)
    requires Inv(t) && Paced(t, steps)
    ensures Paced(Step(t, nonce, r).thread, steps + 1)
  {
  }

  // Every attempt takes one step, or two when it gets as far as signing, and there are at
  // most thirty: after sixty steps a call is no longer preparing.
  lemma {:induction false} PreparationIsBounded(c: TxCandidate, nonce: Option<uint64>, script: seq<Replies>)
    ensures
      var t := Run(c, nonce, script).0;
      && Paced(t, |script|)
      && (t.status == Running && t.tx.None? ==> |script| < 60)
  {
    if script != [] {
      var init := script[..|script| - 1];
      PreparationIsBounded(c, nonce, init);
      RunKeepsInv(Start(c), nonce, init);
      var (t, n) := Run(c, nonce, init);
      StepKeepsPace(t, n, script[|script| - 1], |init|);
    }
    RunKeepsInv(Start(c), nonce, script);
  }

  // A step that ends an attempt in an error, while crafting or while signing.
  ghost predicate EndsAttempt(t: Thread, nonce: Option<uint64>, r: Replies) {
    && t.status == Running
    && if t.stage.Crafting? then !r.cancelled && Craft(t.candidate, r).Failure?
       else t.stage.AwaitingSignature? && Sign(nonce, t.stage.message, r).tx.Err?
  }

  ghost function FailedAttempts(c: TxCandidate, nonce: Option<uint64>, script: seq<Replies>): nat {
    if script == [] then 0
    else
      var init := script[..|script| - 1];
      var (t, n) := Run(c, nonce, init);
      FailedAttempts(c, nonce, init) + if EndsAttempt(t, n, script[|script| - 1]) then 1 else 0
  }

  // A step of the retry loop that finds the context done.
  ghost predicate Cancels(t: Thread, r: Replies) {
    t.status == Running && t.stage.Crafting? && r.cancelled
  }

  // A step that panics, because the fees of the latest block cannot be computed.
  ghost predicate Panics(t: Thread, r: Replies) {
    t.status == Running && t.stage.Crafting? && !r.cancelled && Craft(t.candidate, r).Panic?
  }

  ghost predicate Cancelled(c: TxCandidate, nonce: Option<uint64>, script: seq<Replies>) {
    script != [] &&
    var init := script[..|script| - 1];
    Cancelled(c, nonce, init) || Cancels(Run(c, nonce, init).0, script[|script| - 1])
  }

  ghost predicate Panicked(c: TxCandidate, nonce: Option<uint64>, script: seq<Replies>) {
    script != [] &&
    var init := script[..|script| - 1];
    Panicked(c, nonce, init) || Panics(Run(c, nonce, init).0, script[|script| - 1])
  }

  // What the failed attempts, a done context and a panic say about a call.
  ghost predicate Counts(t: Thread, failed: nat, cancelled: bool, panicked: bool) {
    && (t.status == Crashed <==> panicked)
    && (t.tx.None? && t.status == Failed <==> failed == 30 || cancelled)
    && failed <= 30 && (cancelled ==> failed < 30)
    && (t.tx.None? && t.status == Running ==>
          && failed < 30
          && (t.stage == Crafting(failed) || (t.stage.AwaitingSignature? && t.stage.attempt == failed)))
  }

  lemma StepCounts(t: Thread, nonce: Option<uint64>, r: Replies, failed: nat, cancelled: bool, panicked: bool)
    requires Inv(t) && Counts(t, failed, cancelled, panicked)
    ensures Counts(Step(t, nonce, r).thread, failed + if EndsAttempt(t, nonce, r) then 1 else 0,
                   cancelled || Cancels(t, r), panicked || Panics(t, r))
  {
  }

  // Attempts that fail, while crafting or while signing, are made up for until there were
  // thirty: a call fails without a transaction exactly when thirty attempts failed or the
  // context was done before an attempt; it panics exactly when crafting does; and one still
  // preparing is in the attempt after the failed ones.
  lemma ThirtyAttempts(c: TxCandidate, nonce: Option<uint64>, script: seq<Replies>)
    ensures
      var t, failed := Run(c, nonce, script).0, FailedAttempts(c, nonce, script);
      && failed <= 30
      && (t.tx.None? && t.status == Failed <==> failed == 30 || Cancelled(c, nonce, script))
      && (t.status == Crashed <==> Panicked(c, nonce, script))
      && (t.tx.None? && t.status == Running ==>
            t.stage == Crafting(failed) || (t.stage.AwaitingSignature? && t.stage.attempt == failed))
  {
    RunCounts(c, nonce, script);
  }

  lemma {:induction false} RunCounts(c: TxCandidate, nonce: Option<uint64>, script: seq<Replies>)
    ensures Counts(Run(c, nonce, script).0, FailedAttempts(c, nonce, script), Cancelled(c, nonce, script),
                   Panicked(c, nonce, script))
  {
    if script != [] {
      var init := script[..|script| - 1];
      RunCounts(c, nonce, init);
      RunKeepsInv(Start(c), nonce, init);
      var (t, n) := Run(c, nonce, init);
      StepCounts(t, n, script[|script| - 1], FailedAttempts(c, nonce, init), Cancelled(c, nonce, init),
                 Panicked(c, nonce, init));
    }
  }

  // A candidate that can never be crafted is tried thirty times, and no nonce is touched.
  lemma {:induction false} HopelessCandidate(c: TxCandidate, nonce: Option<uint64>, script: seq<Replies>)
    requires forall i | 0 <= i < |script| :: !script[i].cancelled && Craft(c, script[i]).Failure?
    ensures Run(c, nonce, script) ==
            (if |script| < 30 then Start(c).(stage := Crafting(|script|))
             else Start(c).(stage := Crafting(29), status := Failed), nonce)
  {
    if script != [] {
      HopelessCandidate(c, nonce, script[..|script| - 1]);
    }
  }

  // ---------------------------------------------------------------- the signed bytes

  // The bytes signed for any reservation of any run decode to its request, whose deposit
  // and tip are each half the price, over the integers, of the quote just before it.
  lemma SignedBytesCarryTheQuote(t: Thread, i: nat, req: ReserveBlockSpaceRequest)
    requires Inv(t) && i < |t.trace| && Requests(t.trace[i], req)
    ensures i >= 1 && t.trace[i - 1].Quoted? && t.tx.Some?
    ensures
      var bytes := EncodeReserve(req);
      var q := t.trace[i - 1];
      var price := t.tx.value.content.gas * q.gasPrice + (|t.candidate.blobs| % 0x1_0000_0000) * q.blobPrice;
      && DecodeReserve(bytes) == Some(req)
      && FromLE(bytes[16..48]) == price / 2
      && FromLE(bytes[16..48]) + FromLE(bytes[48..80]) == price - price % 2
      && req.targetSlot == t.trace[i - 1].slot
  {
    assert MayFollow(t.candidate, t.tx.value, t.trace[..i], t.trace[i]);
    var q := t.trace[i - 1];
    PriceBound(t.tx.value.content.gas, q.gasPrice, BlobCount(t.candidate), q.blobPrice);
    ValueOfLimbs(Price(t.tx.value.content.gas, q.gasPrice, BlobCount(t.candidate), q.blobPrice) / 2);
    ReserveRoundTrip(req);
  }

  // The bytes signed for any submission of any run decode to the id of the reservation just
  // before it and the hash of the one signed transaction.
  lemma SignedSubmissionsNameTheirReservation(t: Thread, i: nat, id: Uuid)
    requires Inv(t) && i < |t.trace| && SubmitsUnder(t.trace[i], id)
    ensures i >= 1 && t.trace[i - 1].Reserved? && t.tx.Some?
    ensures DecodeSubmit(EncodeSubmit(id, t.trace[i].tx.hash)) == Some((t.trace[i - 1].id, t.tx.value.hash))
  {
    SubmissionsUseTheirReservation(t, i);
    SubmitDecodesOnlyEncodings(EncodeSubmit(id, t.trace[i].tx.hash), id, t.trace[i].tx.hash);
  }

  // ---------------------------------------------------------------- waiting

  // Heads that never fail, and advance within every k polls.
  ghost predicate Advancing(script: seq<Replies>, k: nat) {
    && (forall i | 0 <= i < |script| :: script[i].head.Ok?)
    && (forall i | 0 <= i && i + k < |script| :: script[i + k].head.value > script[i].head.value)
  }

  lemma {:induction false} AdvancedAfter(script: seq<Replies>, k: nat, m: nat, j: nat)
    requires Advancing(script, k) && j == k * m && j < |script|
    ensures script[j].head.value >= script[0].head.value + m
    decreases m
  {
    if m > 0 {
      assert j - k == k * (m - 1);
      MulNonNegative(k, m - 1);
      AdvancedAfter(script, k, m - 1, j - k);
      assert script[(j - k) + k].head.value > script[j - k].head.value;
    }
  }

  lemma MulNonNegative(a: nat, b: nat)
    ensures a * b >= 0
  {
  }

  ghost predicate WaitingOrLater(t: Thread) {
    t.tx.Some? && (t.stage.Waiting? || t.stage.Fetching? || t.stage.Finished?)
  }

  lemma WaitingStep(t: Thread, nonce: Option<uint64>, r: Replies)
    requires WaitingOrLater(t) && r.head.Ok?
    ensures
      var u := Step(t, nonce, r).thread;
      && WaitingOrLater(u)
      && (u.stage.Waiting? ==>
            t.stage == u.stage && u.status == t.status && (t.status == Running ==> r.head.value < Inc64(t.stage.slot)))
  {
  }

  // While a thread is still waiting, every head it saw was below slot+1.
  lemma {:induction false} StillWaiting(t: Thread, nonce: Option<uint64>, script: seq<Replies>)
    requires WaitingOrLater(t) && t.status == Running && t.stage.Waiting?
    requires forall i | 0 <= i < |script| :: script[i].head.Ok?
    ensures WaitingOrLater(RunFrom(t, nonce, script).0)
    ensures
      var u := RunFrom(t, nonce, script).0;
      u.stage.Waiting? ==> u.status == Running && u.stage == t.stage && HeadsBelow(script, Inc64(t.stage.slot))
  {
    if script != [] {
      var init := script[..|script| - 1];
      StillWaiting(t, nonce, init);
      var (u, n) := RunFrom(t, nonce, init);
      WaitingStep(u, n, script[|script| - 1]);
      assert forall i | 0 <= i < |init| :: script[i] == init[i];
    }
  }

  ghost predicate HeadsBelow(script: seq<Replies>, end: uint64) {
    forall i | 0 <= i < |script| :: script[i].head.Ok? && script[i].head.value < end
  }

  // If the head advances at least once every k polls, waiting is over after at most
  // k * (slot+1 - head) polls beyond the first. Where slot+1 wraps, one poll is enough.
  lemma WaitingEnds(t: Thread, nonce: Option<uint64>, script: seq<Replies>, k: nat)
    requires Inv(t) && t.status == Running && t.stage.Waiting?
    requires k > 0 && Advancing(script, k) && script != []
    requires var end, head := Inc64(t.stage.slot), script[0].head.value; head < end ==> |script| > k * (end - head)
    ensures var u := RunFrom(t, nonce, script).0; u.stage.Fetching? || u.stage.Finished?
  {
    StillWaiting(t, nonce, script);
    if script[0].head.value < Inc64(t.stage.slot) {
      PollsReach(script, k, Inc64(t.stage.slot));
    }
  }

  lemma PollsReach(script: seq<Replies>, k: nat, end: uint64)
    requires k > 0 && Advancing(script, k) && script != [] && script[0].head.value < end
    requires |script| > k * (end - script[0].head.value)
    ensures !HeadsBelow(script, end)
  {
    var m := end - script[0].head.value;
    var j := k * m;
    MulNonNegative(k, m);
    AdvancedAfter(script, k, m, j);
    assert script[j].head.value >= end;
  }

  // A poll ends the wait exactly when the head is past the slot, or when slot+1 wrapped to 0
  // and any head will do.
  lemma PollEndsWaitExactly(t: Thread, nonce: Option<uint64>, r: Replies)
    requires Inv(t) && t.status == Running && t.stage.Waiting? && r.head.Ok?
    ensures
      var u := Step(t, nonce, r).thread;
      && (u.stage == Fetching(t.stage.slot) <==> r.head.value > t.stage.slot || t.stage.slot == TWO_64 - 1)
      && (u.stage == Fetching(t.stage.slot) || u.stage == t.stage)
  {
  }
}
