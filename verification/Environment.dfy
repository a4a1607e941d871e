// What the manager sends and what its environment may answer. Every remote call can fail
// or return anything; one `Replies` record holds the answers in force at one instant.
module Environment {
  import opened Words
  import opened Fees
  import opened Preimages

  type Address = Bytes
  type Blob = Bytes
  type Receipt = Bytes

  datatype TxCandidate = TxCandidate(
    to: Option<Address>, blobs: seq<Blob>, gasLimit: uint64, value: nat, data: Bytes)

  datatype SlotInfo = SlotInfo(slot: uint64, gasAvailable: uint64, blobsAvailable: uint32)

  // The parts of a block header that the fee computation reads.
  datatype Header = Header(baseFee: nat, fullness: Fullness, excessBlobGas: Option<uint64>)

  datatype TxData =
    | DynamicFeeTx(nonce: uint64, gasFeeCap: nat, gas: uint64, to: Option<Address>, value: nat, data: Bytes)
    | BlobTx(nonce: uint64, gasFeeCap: nat, gas: uint64, toAddress: Address, data: Bytes,
             blobFeeCap: nat, blobHashes: seq<Hash>)
    | OtherTx(nonce: uint64, gas: uint64)

  // A signed transaction: its content and the hash that includes the signature.
  datatype Tx = Tx(content: TxData, hash: Hash)

  datatype Replies = Replies(
    cancelled: bool,                    // the context is done when the retry loop looks
    sidecar: Result<seq<Hash>>,         // MakeSidecar
    estimate: Result<uint64>,           // EstimateGas
    blockNumber: Result<uint64>,        // BlockNumber
    block: Result<Header>,              // BlockByNumber
    blobBaseFee: nat,                   // CalcBlobFee
    nonceAt: Result<uint64>,            // NonceAt
    signer: Result<Hash>,               // Signer: the hash of the signed transaction
    slots: Result<seq<SlotInfo>>,       // GetSlots
    head: Result<uint64>,               // getHeadSlot
    fee: Result<(uint64, uint64)>,      // GetPreconfFee: gas price, blob price
    reserve: Result<Uuid>,              // ReserveBlockspace
    submit: Result<()>,                 // SubmitTransaction
    receipt: Result<Receipt>)           // TransactionReceipt

  // A call returns a value, returns an error, panics, or has not returned when the
  // observation ends.
  datatype Outcome<+T> = Success(value: T) | Failure(error: Error) | Panic | Pending
}
