// The transaction manager as the program has it: an object whose nonce is updated in place
// and whose methods loop and return early. A ghost copy of the call's machine state steps
// at every remote call, so each method is proved against the machine.
module TxMgr {
  import opened Words
  import opened Fees
  import opened Uint256
  import opened Preimages
  import opened Environment
  import opened Slots
  import opened Signing
  import opened SendMachine
  import opened SendSafety
  import opened SendAnswers

  // A request for the slot, with the transaction's gas, the blobs, and half the price as
  // deposit and as tip.
  ghost predicate AsksFor(e: Event, c: TxCandidate, tx: Tx, slot: uint64, gasPrice: uint64, blobPrice: uint64) {
    && (e.Reserved? || e.NotReserved?)
    && e.req.targetSlot == slot && e.req.gasLimit == tx.content.gas && e.req.blobCount == |c.blobs| % 0x1_0000_0000
    && Value(e.req.deposit) == (tx.content.gas * gasPrice + e.req.blobCount * blobPrice) / 2
    && e.req.tip == e.req.deposit
  }

  class PreconfTxMgr {
    var nonce: Option<uint64>
    // The answers of the environment, and how many of them have been read.
    const script: seq<Replies>
    var now: nat

    // The run of the current call: where it began, the states it went through, and the
    // machine state it has reached.
    ghost var origin: nat
    ghost var history: seq<(Thread, Option<uint64>)>
    ghost var call: Thread
    ghost var due: Option<uint64>

    ghost predicate Tracking()
      reads this
    {
      && origin <= now <= |script|
      && IsHistory(history, script[origin..now])
      && history[now - origin] == (call, due)
    }

    // Between steps the real nonce is the machine's.
    ghost predicate Synced()
      reads this
    {
      Tracking() && nonce == due
    }

    // What a method that did not succeed says about the call.
    ghost predicate Stopped<T>(o: Outcome<T>)
      reads this
    {
      match o
      case Success(_) => true
      case Failure(_) => call.status == Failed
      case Panic => call.status == Crashed
      case Pending => call.status == Running && now == |script|
    }

    // The call is running at this stage, for this candidate and transaction.
    ghost predicate At(c: TxCandidate, tx: Tx, stage: Stage)
      reads this
    {
      call.status == Running && call.stage == stage && call.candidate == c && call.tx == Some(tx)
    }

    // The counter was fetched by one of the answers from position i on: it stands one below
    // the nonce of that answer.
    ghost predicate FetchedSince(i: nat)
      reads this
    {
      nonce.None? || exists k | i <= k < now && k < |script| :: script[k].nonceAt == Ok(Inc64(nonce.value))
    }

    constructor (script: seq<Replies>)
      ensures nonce == None && now == 0 && this.script == script
    {
      nonce, now := None, 0;
      this.script := script;
      origin, history, due := 0, [], None;
      call := Start(TxCandidate(None, [], 0, 0, []));
    }

    // The answers in force at the next remote call.
    method Take() returns (r: Replies)
      requires Tracking() && now < |script|
      modifies this`now, this`call, this`due, this`history
      ensures Tracking() && now == old(now) + 1
      ensures |history| == |old(history)| + 1 && history[0] == old(history[0])
      ensures r == script[old(now)]
      ensures call == Step(old(call), old(due), r).thread && due == Step(old(call), old(due), r).nonce
    {
      r := script[now];
      HistoryExtends(history, script[origin..now], r);
      assert script[origin..now + 1] == script[origin..now] + [r];
      call, due := Step(call, due, r).thread, Step(call, due, r).nonce;
      history := history + [(call, due)];
      now := now + 1;
    }

    // ------------------------------------------------------------ preparation

    // The returned base fee covers the next block and any five valid blocks after it,
    // exactly when the fee expected for the next block is at least 5 wei.
    method GetBaseFees(r: Replies) returns (o: Outcome<(nat, nat)>)
      ensures o == BaseFees(r)
      ensures o.Failure? <==> r.blockNumber.Err? || r.block.Err?
      ensures o.Panic? <==>
                && r.blockNumber.Ok? && r.block.Ok?
                && var h := r.block.value;
                   (h.fullness.gasLimit <= 1 && h.fullness.gasUsed > 0) || h.excessBlobGas.None?
      ensures o.Success? ==>
                var (baseFee, blobFee) := o.value;
                && baseFee % 2 == 0 && IsNextBaseFee(r.block.value.baseFee, r.block.value.fullness, baseFee / 2)
                && blobFee == 2 * r.blobBaseFee
      ensures o.Success? ==>
                var expected := NextBaseFee(r.block.value.baseFee, r.block.value.fullness);
                expected >= 5 <==>
                forall blocks: seq<Fullness> | ValidChain(blocks) && |blocks| <= 5 ::
                  FeeAfter(expected, blocks) <= o.value.0
    {
      if r.blockNumber.Err? {
        return Failure(r.blockNumber.error);
      }
      if r.block.Err? {
        return Failure(r.block.error);
      }
      if !Divisible(r.block.value.fullness) {
        return Panic;
      }
      var baseFee := NextBaseFee(r.block.value.baseFee, r.block.value.fullness);
      if r.block.value.excessBlobGas.None? {
        return Panic;
      }
      NextBaseFeeExactly(r.block.value.baseFee, r.block.value.fullness, baseFee);
      HeadroomExactly(baseFee);
      return Success((baseFee * 2, r.blobBaseFee * 2));
    }

    // The critical section. A failed signing puts the nonce back; an unrecognised message
    // does not.
    method SignWithNextNonce(message: TxData, r: Replies) returns (tx: Result<Tx>)
      modifies this`nonce
      ensures tx == Sign(old(nonce), message, r).tx && nonce == Sign(old(nonce), message, r).nonce
      ensures tx.Ok? <==> (old(nonce).Some? || r.nonceAt.Ok?) && !message.OtherTx? && r.signer.Ok?
      ensures tx.Ok? ==> r.signer == Ok(tx.value.hash) && tx.value.content == WithNonce(message, tx.value.content.nonce)
      ensures tx.Ok? ==> nonce == Some(tx.value.content.nonce)
      ensures tx.Ok? ==> if old(nonce).None? then r.nonceAt == Ok(tx.value.content.nonce)
                         else tx.value.content.nonce == Inc64(old(nonce).value)
      ensures !message.OtherTx? && tx.Err? && old(nonce).Some? ==> nonce == old(nonce)
      ensures tx.Err? && old(nonce).None? && r.nonceAt.Err? ==> nonce.None?
    {
      if nonce.None? {
        if r.nonceAt.Err? {
          return Err(r.nonceAt.error);
        }
        nonce := Some(r.nonceAt.value);
      } else {
        nonce := Some(Inc64(nonce.value));
      }
      var x := message;
      match message {
        case DynamicFeeTx(_, cap, gas, to, value, data) =>
          x := DynamicFeeTx(nonce.value, cap, gas, to, value, data);
        case BlobTx(_, cap, gas, to, data, blobCap, hashes) =>
          x := BlobTx(nonce.value, cap, gas, to, data, blobCap, hashes);
        case OtherTx(_, _) => return Err("unrecognized tx type");
      }
      if r.signer.Err? {
        nonce := Some(Dec64(nonce.value));
        return Err(r.signer.error);
      }
      return Ok(Tx(x, r.signer.value));
    }

    // The part of crafting that comes before the critical section.
    method BuildMessage(c: TxCandidate, r: Replies) returns (o: Outcome<TxData>)
      ensures o == Craft(c, r)
      ensures o.Failure? <==> CallFails(c, r)
      ensures o.Success? ==> Carries(c, o.value)
    {
      if |c.blobs| > 0 {
        if c.to.None? {
          return Failure("blob txs cannot deploy contracts");
        }
        if r.sidecar.Err? {
          return Failure(r.sidecar.error);
        }
      }
      var gasLimit := c.gasLimit;
      if gasLimit == 0 {
        if r.estimate.Err? {
          return Failure(r.estimate.error);
        }
        gasLimit := r.estimate.value;
      }
      var fees := GetBaseFees(r);
      match fees {
        case Failure(e) => return Failure(e);
        case Panic => return Panic;
        case Pending => return Pending;
        case Success((baseFee, blobFee)) =>
          if |c.blobs| > 0 {
            if baseFee >= TWO_256 || blobFee >= TWO_256 {
              return Panic;
            }
            return Success(BlobTx(0, baseFee, gasLimit, c.to.value, c.data, blobFee, r.sidecar.value));
          }
          return Success(DynamicFeeTx(0, baseFee, gasLimit, c.to, c.value, c.data));
      }
    }

    // The part of crafting under the lock. A success consumes the nonce that was due, a
    // failure leaves it due, whether or not the counter had been set.
    method SignMessage(c: TxCandidate, attempt: nat, message: TxData) returns (o: Outcome<Tx>)
      requires Synced() && Carries(c, message)
      requires call == Start(c).(stage := AwaitingSignature(attempt, message))
      modifies this`nonce, this`now, this`call, this`due, this`history
      ensures Synced() && now >= old(now) && history != [] && history[0] == old(history[0])
      ensures !o.Panic? && (o.Pending? ==> Stopped(o) && call == old(call) && nonce == old(nonce))
      ensures o.Failure? ==> call == Retry(old(call), attempt)
      ensures o.Success? ==> At(c, o.value, Choosing) && nonce == Some(o.value.content.nonce)
      ensures old(nonce).Some? ==> nonce == if o.Success? then Upcoming(old(nonce)) else old(nonce)
      ensures old(nonce).None? && !o.Success? ==> FetchedSince(old(now))
      ensures old(nonce).None? && o.Success? ==>
                old(now) < now && script[old(now)].nonceAt == Ok(o.value.content.nonce)
      ensures o.Success? ==> old(now) < now && script[old(now)].signer == Ok(o.value.hash)
                             && o.value.content == WithNonce(message, o.value.content.nonce)
      ensures o.Failure? && old(nonce).Some? ==> old(now) < now && script[old(now)].signer.Err?
    {
      if now == |script| {
        return Pending;
      }
      var r := Take();
      var tx := SignWithNextNonce(message, r);
      if tx.Err? {
        if old(nonce).None? && r.nonceAt.Ok? {
          IncDec(r.nonceAt.value);
          assert script[old(now)].nonceAt == Ok(Inc64(nonce.value));
        }
        return Failure(tx.error);
      }
      return Success(tx.value);
    }

    // The call is about to make this attempt, or has used up all of them.
    ghost predicate ReadyFor(c: TxCandidate, attempt: nat)
      reads this
    {
      if attempt < MAX_ATTEMPTS then call == Start(c).(stage := Crafting(attempt))
      else call.status == Failed && call.tx.None?
    }

    // One attempt of the retry loop.
    method Attempt(c: TxCandidate, attempt: nat) returns (o: Outcome<Tx>, retry: bool)
      requires Synced() && attempt < MAX_ATTEMPTS && call == Start(c).(stage := Crafting(attempt))
      modifies this`nonce, this`now, this`call, this`due, this`history
      ensures Synced() && now >= old(now) && history != [] && history[0] == old(history[0])
      ensures retry ==> o.Failure? && ReadyFor(c, attempt + 1)
      ensures !retry ==> Stopped(o) && (!o.Success? ==> call.tx.None?)
      ensures o.Success? ==> At(c, o.value, Choosing) && nonce == Some(o.value.content.nonce)
      ensures old(nonce).Some? ==> nonce == if o.Success? then Upcoming(old(nonce)) else old(nonce)
      ensures old(nonce).None? && !o.Success? ==> FetchedSince(old(now))
      ensures old(nonce).None? && o.Success? ==>
                exists k | old(now) <= k < now :: script[k].nonceAt == Ok(o.value.content.nonce)
    {
      if now == |script| {
        return Pending, false;
      }
      var r := Take();
      if r.cancelled {
        return Failure("context done"), false;
      }
      var message := BuildMessage(c, r);
      match message {
        case Failure(e) => return Failure(e), true;
        case Panic => return Panic, false;
        case Pending =>
        case Success(m) =>
          o := SignMessage(c, attempt, m);
          retry := o.Failure?;
      }
    }

    // At most thirty attempts. A returned transaction has consumed exactly the nonce that
    // was due. An error has consumed none: a counter that was set is where it was, one that
    // was not is still unset or stands just below a nonce fetched meanwhile.
    method Prepare(c: TxCandidate) returns (o: Outcome<Tx>)
      requires Synced() && call == Start(c)
      modifies this`nonce, this`now, this`call, this`due, this`history
      ensures Synced() && now >= old(now) && history != [] && history[0] == old(history[0])
      ensures Stopped(o) && (!o.Success? ==> call.tx.None?)
      ensures o.Success? ==> At(c, o.value, Choosing) && nonce == Some(o.value.content.nonce)
      ensures old(nonce).Some? ==> nonce == if o.Success? then Upcoming(old(nonce)) else old(nonce)
      ensures old(nonce).None? && !o.Success? ==> FetchedSince(old(now))
      ensures old(nonce).None? && o.Success? ==>
                exists k | old(now) <= k < now :: script[k].nonceAt == Ok(o.value.content.nonce)
    {
      for attempt := 0 to MAX_ATTEMPTS
        invariant Synced() && now >= old(now) && history != [] && history[0] == old(history[0])
        invariant ReadyFor(c, attempt)
        invariant old(nonce).Some? ==> nonce == old(nonce)
        invariant old(nonce).None? ==> FetchedSince(old(now))
      {
        var retry;
        o, retry := Attempt(c, attempt);
        if !retry {
          return o;
        }
      }
      return Failure("failed to create the tx");
    }

    // ------------------------------------------------------------ reserving and submitting

    method ChooseSlot(c: TxCandidate, tx: Tx) returns (o: Outcome<uint64>)
      requires Synced() && At(c, tx, Choosing)
      modifies this`now, this`call, this`due, this`history
      ensures Synced() && now >= old(now) && history != [] && history[0] == old(history[0])
      ensures Stopped(o) && call.tx == Some(tx)
      ensures o.Success? ==> At(c, tx, Quoting(o.value)) && now == old(now) + 1
      ensures old(now) < |script| ==> (o.Failure? <==> NoSlotFits(c, script[old(now)].slots, script[old(now)].head))
    {
      if now == |script| {
        return Pending;
      }
      var r := Take();
      var chosen := GetSlotForCandidate(c, r.slots, r.head);
      if chosen.Err? {
        return Failure(chosen.error);
      }
      return Success(chosen.value);
    }

    method GetPreconfFee(c: TxCandidate, tx: Tx, slot: uint64) returns (o: Outcome<(uint64, uint64)>)
      requires Synced() && At(c, tx, Quoting(slot))
      modifies this`now, this`call, this`due, this`history
      ensures Synced() && now >= old(now) && history != [] && history[0] == old(history[0])
      ensures Stopped(o) && call.tx == Some(tx)
      ensures o.Success? ==> At(c, tx, Reserving(slot, o.value.0, o.value.1)) && now == old(now) + 1
      ensures o.Success? ==> script[old(now)].fee == Ok(o.value)
                             && call.trace == old(call.trace) + [Quoted(slot, o.value.0, o.value.1)]
      ensures old(now) < |script| ==> (o.Failure? <==> script[old(now)].fee.Err?)
    {
      if now == |script| {
        return Pending;
      }
      var r := Take();
      if r.fee.Err? {
        return Failure(r.fee.error);
      }
      return Success(r.fee.value);
    }

    // A lost reservation is not a failure of the call.
    method ReserveBlockspace(
      c: TxCandidate, tx: Tx, slot: uint64, gasPrice: uint64, blobPrice: uint64, req: ReserveBlockSpaceRequest)
      returns (o: Outcome<Option<Uuid>>)
      requires Synced() && At(c, tx, Reserving(slot, gasPrice, blobPrice))
      requires req == RequestFor(c, tx, slot, gasPrice, blobPrice)
      modifies this`now, this`call, this`due, this`history
      ensures Synced() && now >= old(now) && history != [] && history[0] == old(history[0])
      ensures Stopped(o) && call.tx == Some(tx)
      ensures o.Success? ==>
                if o.value.Some? then
                  At(c, tx, Submitting(slot, o.value.value))
                  && call.trace == old(call.trace) + [Reserved(req, o.value.value)]
                else
                  At(c, tx, Choosing) && call.trace == old(call.trace) + [NotReserved(req)]
      ensures o.Success? ==> now == old(now) + 1
                             && if o.value.Some? then script[old(now)].reserve == Ok(o.value.value)
                                else script[old(now)].reserve.Err?
    {
      if now == |script| {
        return Pending;
      }
      var r := Take();
      return Success(if r.reserve.Ok? then Some(r.reserve.value) else None);
    }

    // Nor is a failed submission.
    method SubmitTransaction(c: TxCandidate, tx: Tx, slot: uint64, id: Uuid) returns (o: Outcome<bool>)
      requires Synced() && At(c, tx, Submitting(slot, id))
      modifies this`now, this`call, this`due, this`history
      ensures Synced() && now >= old(now) && history != [] && history[0] == old(history[0])
      ensures Stopped(o) && call.tx == Some(tx)
      ensures o.Success? ==>
                if o.value then
                  At(c, tx, Waiting(slot)) && call.trace == old(call.trace) + [Submitted(id, tx)]
                else
                  At(c, tx, Choosing) && call.trace == old(call.trace) + [NotSubmitted(id, tx)]
      ensures o.Success? ==> now == old(now) + 1 && (o.value <==> script[old(now)].submit.Ok?)
    {
      if now == |script| {
        return Pending;
      }
      var r := Take();
      return Success(r.submit.Ok?);
    }

    // The retry loop: another pass after every lost reservation or failed submission.
    method ReserveAndSubmit(c: TxCandidate, tx: Tx) returns (o: Outcome<uint64>)
      requires Synced() && At(c, tx, Choosing)
      modifies this`now, this`call, this`due, this`history
      ensures Synced() && now >= old(now) && history != [] && history[0] == old(history[0])
      ensures Stopped(o) && call.tx == Some(tx)
      ensures o.Success? ==> At(c, tx, Waiting(o.value)) && now > old(now) && script[now - 1].submit.Ok?
    {
      while true
        invariant Synced() && now >= old(now) && history != [] && history[0] == old(history[0])
        invariant At(c, tx, Choosing)
        decreases |script| - now
      {
        o := ChooseSlot(c, tx);
        if !o.Success? {
          return;
        }
        var slot := o.value;
        var submitted := ReserveSlot(c, tx, slot);
        match submitted {
          case Failure(e) => return Failure(e);
          case Panic => return Panic;
          case Pending => return Pending;
          case Success(done) =>
            if done {
              return Success(slot);
            }
        }
      }
    }

    // The rest of a pass, once the slot is chosen: quote, deposit, reservation, submission.
    method ReserveSlot(c: TxCandidate, tx: Tx, slot: uint64) returns (o: Outcome<bool>)
      requires Synced() && At(c, tx, Quoting(slot))
      modifies this`now, this`call, this`due, this`history
      ensures Synced() && now >= old(now) && history != [] && history[0] == old(history[0])
      ensures Stopped(o) && call.tx == Some(tx)
      ensures o.Success? ==> At(c, tx, if o.value then Waiting(slot) else Choosing)
      ensures o.Success? ==> now > old(now) + 1 && script[old(now)].fee.Ok?
      ensures o.Success? ==>
                var n, fee := |old(call.trace)|, script[old(now)].fee.value;
                && n + 1 < |call.trace|
                && call.trace[n] == Quoted(slot, fee.0, fee.1) && AsksFor(call.trace[n + 1], c, tx, slot, fee.0, fee.1)
      ensures o.Success? ==>
                (o.value <==> script[old(now) + 1].reserve.Ok? && now == old(now) + 3 && script[now - 1].submit.Ok?)
    {
      var fee := GetPreconfFee(c, tx, slot);
      match fee {
        case Failure(e) => return Failure(e);
        case Panic => return Panic;
        case Pending => return Pending;
        case Success((gasPrice, blobPrice)) => o := ReserveAtPrice(c, tx, slot, gasPrice, blobPrice);
      }
    }

    method ReserveAtPrice(c: TxCandidate, tx: Tx, slot: uint64, gasPrice: uint64, blobPrice: uint64)
      returns (o: Outcome<bool>)
      requires Synced() && At(c, tx, Reserving(slot, gasPrice, blobPrice))
      modifies this`now, this`call, this`due, this`history
      ensures Synced() && now >= old(now) && history != [] && history[0] == old(history[0])
      ensures Stopped(o) && call.tx == Some(tx)
      ensures o.Success? ==> At(c, tx, if o.value then Waiting(slot) else Choosing)
      ensures o.Success? ==>
                var n := |old(call.trace)|;
                && n < |call.trace| && call.trace[..n] == old(call.trace)
                && AsksFor(call.trace[n], c, tx, slot, gasPrice, blobPrice)
      ensures o.Success? ==>
                && now > old(now)
                && (o.value <==> script[old(now)].reserve.Ok? && now == old(now) + 2 && script[now - 1].submit.Ok?)
    {
      var deposit := Deposit(tx.content.gas, gasPrice, BlobCount(c), blobPrice);
      var reserveReq := ReserveBlockSpaceRequest(BlobCount(c), deposit, tx.content.gas, slot, deposit);
      var reserved := ReserveBlockspace(c, tx, slot, gasPrice, blobPrice, reserveReq);
      match reserved {
        case Failure(e) => return Failure(e);
        case Panic => return Panic;
        case Pending => return Pending;
        case Success(None) => return Success(false);
        case Success(Some(id)) => o := SubmitTransaction(c, tx, slot, id);
      }
    }

    // ------------------------------------------------------------ waiting

    method GetHeadSlot(c: TxCandidate, tx: Tx, slot: uint64) returns (o: Outcome<uint64>)
      requires Synced() && At(c, tx, Waiting(slot))
      modifies this`now, this`call, this`due, this`history
      ensures Synced() && now >= old(now) && history != [] && history[0] == old(history[0])
      ensures Stopped(o) && call.tx == Some(tx)
      ensures o.Failure? ==> now == old(now) + 1 && script[old(now)].head.Err?
      ensures o.Success? ==> now == old(now) + 1 && script[old(now)].head == Ok(o.value)
      ensures o.Success? ==> call.trace == old(call.trace) + [SawHead(o.value)]
                             && At(c, tx, if o.value < Inc64(slot) then Waiting(slot) else Fetching(slot))
    {
      if now == |script| {
        return Pending;
      }
      var r := Take();
      if r.head.Err? {
        return Failure(r.head.error);
      }
      return Success(r.head.value);
    }

    // The first look at the head and the polling loop.
    method Wait(c: TxCandidate, tx: Tx, slot: uint64) returns (o: Outcome<uint64>)
      requires Synced() && At(c, tx, Waiting(slot))
      modifies this`now, this`call, this`due, this`history
      ensures Synced() && now >= old(now) && history != [] && history[0] == old(history[0])
      ensures Stopped(o) && call.tx == Some(tx)
      ensures o.Success? ==> At(c, tx, Fetching(slot)) && o.value >= Inc64(slot)
      ensures o.Success? ==> now > old(now) && script[now - 1].head == Ok(o.value)
      ensures o.Failure? ==> now > old(now) && script[now - 1].head.Err?
    {
      o := GetHeadSlot(c, tx, slot);
      while o.Success? && o.value < Inc64(slot)
        invariant Synced() && now >= old(now) && history != [] && history[0] == old(history[0])
        invariant Stopped(o) && call.tx == Some(tx)
        invariant o.Success? ==> At(c, tx, if o.value < Inc64(slot) then Waiting(slot) else Fetching(slot))
        invariant o.Success? ==> now > old(now) && script[now - 1].head == Ok(o.value)
        invariant o.Failure? ==> now > old(now) && script[now - 1].head.Err?
        decreases |script| - now, o.Success?
      {
        o := GetHeadSlot(c, tx, slot);
      }
    }

    method TransactionReceipt(c: TxCandidate, tx: Tx, slot: uint64) returns (o: Outcome<Result<Receipt>>)
      requires Synced() && At(c, tx, Fetching(slot))
      modifies this`now, this`call, this`due, this`history
      ensures Synced() && now >= old(now) && history != [] && history[0] == old(history[0])
      ensures Stopped(o) && call.tx == Some(tx)
      ensures o.Success? ==> call.status == Returned(o.value) && call.trace == old(call.trace) + [LookedUp(tx.hash)]
      ensures o.Success? ==> now == old(now) + 1 && o.value == script[old(now)].receipt
      ensures !o.Success? ==> o.Pending?
    {
      if now == |script| {
        return Pending;
      }
      var r := Take();
      return Success(r.receipt);
    }

    // ------------------------------------------------------------ the whole call

    // What Send does once the transaction is signed.
    method Preconfirm(c: TxCandidate, tx: Tx) returns (o: Outcome<Result<Receipt>>)
      requires Synced() && At(c, tx, Choosing)
      modifies this`now, this`call, this`due, this`history
      ensures Synced() && now >= old(now) && history != [] && history[0] == old(history[0])
      ensures Stopped(o) && call.tx == Some(tx)
      ensures o.Success? ==> call.status == Returned(o.value) && now > old(now) && o.value == script[now - 1].receipt
    {
      var reserved := ReserveAndSubmit(c, tx);
      match reserved {
        case Failure(e) => return Failure(e);
        case Panic => return Panic;
        case Pending => return Pending;
        case Success(slot) =>
          var waited := Wait(c, tx, slot);
          match waited {
            case Failure(e) => return Failure(e);
            case Panic => return Panic;
            case Pending => return Pending;
            case Success(_) => o := TransactionReceipt(c, tx, slot);
          }
      }
    }

    // The two halves of a call.
    method PrepareAndPreconfirm(c: TxCandidate) returns (o: Outcome<Result<Receipt>>)
      requires Synced() && call == Start(c)
      modifies this`nonce, this`now, this`call, this`due, this`history
      ensures Synced() && now >= old(now) && history != [] && history[0] == old(history[0])
      ensures Stopped(o) && (o.Success? ==> call.status == Returned(o.value))
      ensures old(nonce).Some? ==> nonce == if call.tx.Some? then Upcoming(old(nonce)) else old(nonce)
      ensures o.Success? ==> now > old(now) && o.value == script[now - 1].receipt
    {
      var prepared := Prepare(c);
      match prepared {
        case Failure(e) => o := Failure(e);
        case Panic => o := Panic;
        case Pending => o := Pending;
        case Success(tx) => o := Preconfirm(c, tx);
      }
    }

    // The ghost state of a call that has read no answers yet.
    ghost method Begin(c: TxCandidate)
      requires now <= |script|
      modifies this`origin, this`history, this`call, this`due
      ensures Synced() && call == Start(c)
      ensures origin == now && history == [(Start(c), nonce)]
    {
      origin, history, call, due := now, [(Start(c), nonce)], Start(c), nonce;
      assert script[origin..now] == [];
    }

    // The call is a run of the machine on the answers read since position i, it keeps the
    // invariant of such runs, and those answers account for it, the signature by the p-th.
    // If it returned it went through the whole protocol, from event k on.
    ghost predicate Explained(c: TxCandidate, first: Option<uint64>, i: nat, p: nat, k: nat)
      reads this
    {
      && i <= now <= |script|
      && Run(c, first, script[i..now]) == (call, due)
      && Inv(call)
      && Accounted(call, script[i..now], p)
      && (call.status.Returned? ==> EndsWell(call, k))
    }

    lemma CallIsExplained(c: TxCandidate, first: Option<uint64>) returns (p: nat, k: nat)
      requires Tracking() && history[0] == (Start(c), first)
      ensures Explained(c, first, origin, p, k)
    {
      HistoryIsRun(history, script[origin..now]);
      RunKeepsInv(Start(c), first, script[origin..now]);
      p := RunIsAccounted(c, first, script[origin..now]);
      k := ReturnedRunEndsWell(c, first, script[origin..now]);
    }

    // A call of Send is a run of the machine on the answers it read, and leaves the nonce
    // of that run. It is pending only when the answers have run out. A counter that was set
    // moves by one exactly if a transaction was signed, however the call ends; and a call
    // that returns a receipt or its error has gone through the whole protocol, and returns
    // what the last answer says. The answers it read account for all it did.
    method Send(c: TxCandidate) returns (o: Outcome<Result<Receipt>>, ghost p: nat, ghost k: nat)
      requires now <= |script|
      modifies this
      ensures old(now) <= now <= |script|
      ensures Explained(c, old(nonce), old(now), p, k) && nonce == due
      ensures Stopped(o) && (o.Success? ==> call.status == Returned(o.value))
      ensures old(nonce).Some? ==> nonce == if call.tx.Some? then Upcoming(old(nonce)) else old(nonce)
      ensures o.Success? ==> now > old(now) && o.value == script[now - 1].receipt
    {
      Begin(c);
      o := PrepareAndPreconfirm(c);
      p, k := CallIsExplained(c, old(nonce));
    }
  }
}
