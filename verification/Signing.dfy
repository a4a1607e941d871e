// Building the transaction and giving it the next nonce.
module Signing {
  import opened Words
  import opened Fees
  import opened Environment

  // Twice the expected base fees of the next block. A header without excess blob gas, or
  // with a gas limit too small to have a target, makes the computation panic.
  function BaseFees(r: Replies): Outcome<(nat, nat)> {
    if r.blockNumber.Err? then Failure(r.blockNumber.error)
    else if r.block.Err? then Failure(r.block.error)
    else if !Divisible(r.block.value.fullness) || r.block.value.excessBlobGas.None? then Panic
    else Success((NextBaseFee(r.block.value.baseFee, r.block.value.fullness) * 2, r.blobBaseFee * 2))
  }

  // The message is of a recognised type and holds what the candidate asked for: a blob
  // transaction exactly when there are blobs, the destination and data, and the gas limit
  // when one was given. The fee caps of a blob transaction fit 256 bits.
  ghost predicate Carries(c: TxCandidate, m: TxData) {
    && (c.gasLimit != 0 ==> m.gas == c.gasLimit)
    && match m
       case DynamicFeeTx(_, _, _, to, value, data) =>
         |c.blobs| == 0 && to == c.to && value == c.value && data == c.data
       case BlobTx(_, cap, _, to, data, blobCap, _) =>
         |c.blobs| > 0 && c.to == Some(to) && data == c.data && cap < TWO_256 && blobCap < TWO_256
       case OtherTx(_, _) => false
  }

  // A candidate that no environment can turn into a transaction.
  predicate Uncraftable(c: TxCandidate) {
    |c.blobs| > 0 && c.to.None?
  }

  // One of the calls that crafting this candidate depends on fails.
  predicate CallFails(c: TxCandidate, r: Replies) {
    || (|c.blobs| > 0 && (c.to.None? || r.sidecar.Err?))
    || (c.gasLimit == 0 && r.estimate.Err?)
    || r.blockNumber.Err?
    || r.block.Err?
  }

  // The fees can be computed, and fit 256 bits where a blob transaction stores them.
  predicate FeesFit(c: TxCandidate, r: Replies)
    requires r.block.Ok?
  {
    var h := r.block.value;
    && Divisible(h.fullness) && h.excessBlobGas.Some?
    && (|c.blobs| > 0 ==> 2 * NextBaseFee(h.baseFee, h.fullness) < TWO_256 && 2 * r.blobBaseFee < TWO_256)
  }

  // The unsigned transaction for a candidate: an error exactly when a call fails, a panic
  // exactly when the fees do not fit, otherwise what the candidate asked for, with the
  // estimated gas if it gave no limit and twice the expected fees as caps.
  function Craft(c: TxCandidate, r: Replies): (m: Outcome<TxData>)
    ensures !m.Pending?
    ensures m.Failure? <==> CallFails(c, r)
    ensures m.Panic? <==> !CallFails(c, r) && !FeesFit(c, r)
    ensures m.Success? ==>
              && Carries(c, m.value)
              && (c.gasLimit == 0 ==> r.estimate == Ok(m.value.gas))
              && m.value.gasFeeCap == 2 * NextBaseFee(r.block.value.baseFee, r.block.value.fullness)
              && (m.value.BlobTx? ==> m.value.blobFeeCap == 2 * r.blobBaseFee && r.sidecar == Ok(m.value.blobHashes))
  {
    if |c.blobs| > 0 && c.to.None? then Failure("blob txs cannot deploy contracts")
    else if |c.blobs| > 0 && r.sidecar.Err? then Failure(r.sidecar.error)
    else if c.gasLimit == 0 && r.estimate.Err? then Failure(r.estimate.error)
    else
      var gas := if c.gasLimit == 0 then r.estimate.value else c.gasLimit;
      match BaseFees(r)
      case Failure(e) => Failure(e)
      case Panic => Panic
      case Pending => Pending
      case Success((baseFee, blobFee)) =>
        if |c.blobs| == 0 then
          Success(DynamicFeeTx(0, baseFee, gas, c.to, c.value, c.data))
        else if baseFee >= TWO_256 || blobFee >= TWO_256 then
          Panic
        else
          Success(BlobTx(0, baseFee, gas, c.to.value, c.data, blobFee, r.sidecar.value))
  }

  // The fee cap of every crafted transaction covers the block after the observed one and
  // the five that follow, for every chain, exactly when the expected base fee is at least
  // 5 wei.
  lemma CraftedCapCoversSixBlocksExactly(c: TxCandidate, r: Replies)
    requires Craft(c, r).Success?
    ensures
      var expected := NextBaseFee(r.block.value.baseFee, r.block.value.fullness);
      expected >= 5 <==>
      forall blocks: seq<Fullness> | ValidChain(blocks) && |blocks| <= 5 ::
        FeeAfter(expected, blocks) <= Craft(c, r).value.gasFeeCap
  {
    HeadroomExactly(NextBaseFee(r.block.value.baseFee, r.block.value.fullness));
  }

  // ---------------------------------------------------------------- the nonce

  function WithNonce(m: TxData, n: uint64): TxData
    requires m.DynamicFeeTx? || m.BlobTx?
  {
    match m
    case DynamicFeeTx(_, cap, gas, to, value, data) => DynamicFeeTx(n, cap, gas, to, value, data)
    case BlobTx(_, cap, gas, to, data, blobCap, hashes) => BlobTx(n, cap, gas, to, data, blobCap, hashes)
  }

  // The outcome of one critical section: the stored nonce it leaves, the nonce it fetched
  // from the backend if any, and the signed transaction.
  datatype Signature = Signature(nonce: Option<uint64>, fetched: Option<uint64>, tx: Result<Tx>)

  function Sign(nonce: Option<uint64>, m: TxData, r: Replies): Signature {
    if nonce.None? && r.nonceAt.Err? then
      Signature(None, None, Err(r.nonceAt.error))
    else
      var fetched := if nonce.None? then Some(r.nonceAt.value) else None;
      var n := if nonce.None? then r.nonceAt.value else Inc64(nonce.value);
      if m.OtherTx? then
        Signature(Some(n), fetched, Err("unrecognized tx type"))
      else if r.signer.Err? then
        Signature(Some(Dec64(n)), fetched, Err(r.signer.error))
      else
        Signature(Some(n), fetched, Ok(Tx(WithNonce(m, n), r.signer.value)))
  }

  // The nonce the next signing will use, once the counter is set.
  function Upcoming(nonce: Option<uint64>): Option<uint64> {
    match nonce
    case None => None
    case Some(n) => Some(Inc64(n))
  }

  lemma IncDec(n: uint64)
    ensures Inc64(Dec64(n)) == n
    ensures Dec64(Inc64(n)) == n
  {
  }

  // The nonce due at a critical section: the upcoming one, or the backend's when unset.
  ghost function Due(nonce: Option<uint64>, r: Replies): Option<uint64> {
    if nonce.Some? then Upcoming(nonce) else if r.nonceAt.Ok? then Some(r.nonceAt.value) else None
  }

  // A signing succeeds exactly if there is a nonce due, the message is recognised and the
  // signer answers, and takes the hash from that answer. A success uses exactly the nonce
  // due and changes nothing else of the message; a failure
  // leaves that nonce due. Both hold at every value of the counter, including where the
  // decrement wraps below 0, and precisely because the message is of a recognised type.
  lemma SignConsumesExactlyOnSuccess(nonce: Option<uint64>, m: TxData, r: Replies)
    ensures
      var s := Sign(nonce, m, r);
      && (s.tx.Ok? <==> Due(nonce, r).Some? && !m.OtherTx? && r.signer.Ok?)
      && (s.tx.Ok? ==> r.signer == Ok(s.tx.value.hash))
      && (s.tx.Ok? ==> !m.OtherTx? && !s.tx.value.content.OtherTx? && WithNonce(s.tx.value.content, m.nonce) == m)
      && (s.tx.Ok? ==> Due(nonce, r) == Some(s.tx.value.content.nonce) && s.nonce == Due(nonce, r))
      && (s.tx.Err? && Due(nonce, r).Some? ==> (Upcoming(s.nonce) == Due(nonce, r) <==> !m.OtherTx?))
      && (s.tx.Err? && Due(nonce, r).None? ==> s.nonce.None?)
  {
    if Due(nonce, r).Some? {
      IncDec(Due(nonce, r).value);
    }
  }
}
