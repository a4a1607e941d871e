// The byte strings that are hashed and signed for the gateway: a reservation request and
// a transaction submission, with the decoders the gateway needs to reconstruct them.
module Preimages {
  import opened Words
  import opened LittleEndian
  import opened Uint256

  type Uuid = s: Bytes | |s| == 16 witness seq(16, i => 0)
  type Hash = s: Bytes | |s| == 32 witness seq(32, i => 0)

  datatype ReserveBlockSpaceRequest = ReserveBlockSpaceRequest(
    blobCount: uint32, deposit: U256, gasLimit: uint64, targetSlot: uint64, tip: U256)

  // ---------------------------------------------------------------- appending

  method AppendUint64(to: Bytes, v: uint64) returns (r: Bytes)
    ensures r == to + ToLE(8, v)
  {
    r := to + [v % 256, v / 256 % 256, v / 256 / 256 % 256, v / 256 / 256 / 256 % 256,
               v / 256 / 256 / 256 / 256 % 256, v / 256 / 256 / 256 / 256 / 256 % 256,
               v / 256 / 256 / 256 / 256 / 256 / 256 % 256,
               v / 256 / 256 / 256 / 256 / 256 / 256 / 256 % 256];
    UnrolledLE(v);
  }

  lemma UnrolledLE(v: nat)
    ensures ToLE(8, v) == [v % 256, v / 256 % 256, v / 256 / 256 % 256, v / 256 / 256 / 256 % 256,
                           v / 256 / 256 / 256 / 256 % 256, v / 256 / 256 / 256 / 256 / 256 % 256,
                           v / 256 / 256 / 256 / 256 / 256 / 256 % 256,
                           v / 256 / 256 / 256 / 256 / 256 / 256 / 256 % 256]
  {
    var w := v / 256 / 256 / 256 / 256;
    assert ToLE(4, w) == [w % 256, w / 256 % 256, w / 256 / 256 % 256, w / 256 / 256 / 256 % 256] by {
      assert ToLE(2, w / 256 / 256) == [w / 256 / 256 % 256, w / 256 / 256 / 256 % 256];
    }
    assert ToLE(6, v / 256 / 256) == [v / 256 / 256 % 256, v / 256 / 256 / 256 % 256] + ToLE(4, w);
    assert ToLE(8, v) == [v % 256, v / 256 % 256] + ToLE(6, v / 256 / 256);
  }

  // The four limbs, low limb first, are the 32-byte expansion of the whole number.
  method AppendUint256(to: Bytes, u: U256) returns (r: Bytes)
    ensures r == to + ToLE(32, Value(u))
  {
    r := AppendUint64(to, u[0]);
    r := AppendUint64(r, u[1]);
    r := AppendUint64(r, u[2]);
    r := AppendUint64(r, u[3]);
    LimbsConcatenate(u);
    Append4(to, ToLE(8, u[0]), ToLE(8, u[1]), ToLE(8, u[2]), ToLE(8, u[3]));
  }

  lemma Append4(to: Bytes, a: Bytes, b: Bytes, c: Bytes, d: Bytes)
    ensures to + a + b + c + d == to + (a + b + c + d)
  {
  }

  lemma LimbsConcatenate(u: U256)
    ensures ToLE(8, u[0]) + ToLE(8, u[1]) + ToLE(8, u[2]) + ToLE(8, u[3]) == ToLE(32, Value(u))
  {
    Pow256Of8();
    WordsConcatenate(8, u);
  }

  lemma WordsConcatenate(w: nat, u: U256)
    requires Pow256(w) == TWO_64
    ensures ToLE(w, u[0]) + ToLE(w, u[1]) + ToLE(w, u[2]) + ToLE(w, u[3]) == ToLE(w + (w + (w + w)), Value(u))
  {
    Regroup(ToLE(w, u[0]), ToLE(w, u[1]), ToLE(w, u[2]), ToLE(w, u[3]));
    ToLEConcat4(w, u[0], u[1], u[2], u[3], u[1] + TWO_64 * (u[2] + TWO_64 * u[3]), u[2] + TWO_64 * u[3]);
  }

  // ---------------------------------------------------------------- reservation

  ghost function EncodeReserve(req: ReserveBlockSpaceRequest): (b: Bytes)
    ensures |b| == 88
  {
    ToLE(8, req.targetSlot) + ToLE(8, req.gasLimit) + ToLE(32, Value(req.deposit))
    + ToLE(32, Value(req.tip)) + ToLE(8, req.blobCount)
  }

  method ReservePreimage(req: ReserveBlockSpaceRequest) returns (digest: Bytes)
    ensures digest == EncodeReserve(req)
  {
    digest := [];
    digest := AppendUint64(digest, req.targetSlot);
    assert digest == ToLE(8, req.targetSlot);
    digest := AppendUint64(digest, req.gasLimit);
    digest := AppendUint256(digest, req.deposit);
    digest := AppendUint256(digest, req.tip);
    digest := AppendUint64(digest, req.blobCount);
  }

  // What a gateway holding only the 88 bytes can reconstruct.
  function DecodeReserve(b: Bytes): Option<ReserveBlockSpaceRequest>
  {
    if |b| != 88 then None
    else
      var blobs := FromLE(b[80..]);
      if blobs >= TWO_32 then None
      else
        FieldBounds(b);
        Some(ReserveBlockSpaceRequest(
               blobs, Limbs(FromLE(b[16..48])), FromLE(b[8..16]), FromLE(b[..8]), Limbs(FromLE(b[48..80]))))
  }

  lemma FieldBounds(b: Bytes)
    requires |b| == 88
    ensures FromLE(b[..8]) < TWO_64 && FromLE(b[8..16]) < TWO_64
  {
    Pow256Of8();
    FromLEBound(b[..8]);
    FromLEBound(b[8..16]);
  }

  lemma Pow256Of32()
    ensures Pow256(32) == TWO_256
  {
    Pow256Of8();
    Pow256Adds(8, 8);
    Pow256Adds(16, 16);
  }

  lemma {:induction false} Pow256Adds(a: nat, b: nat)
    ensures Pow256(a + b) == Pow256(a) * Pow256(b)
  {
    if a > 0 {
      Pow256Adds(a - 1, b);
      MulAssoc(256, Pow256(a - 1), Pow256(b));
    }
  }

  lemma ReserveFields(req: ReserveBlockSpaceRequest)
    ensures
      var b := EncodeReserve(req);
      && b[..8] == ToLE(8, req.targetSlot) && b[8..16] == ToLE(8, req.gasLimit)
      && b[16..48] == ToLE(32, Value(req.deposit)) && b[48..80] == ToLE(32, Value(req.tip))
      && b[80..] == ToLE(8, req.blobCount)
  {
  }

  // Encoding loses nothing: every field comes back.
  lemma ReserveRoundTrip(req: ReserveBlockSpaceRequest)
    ensures DecodeReserve(EncodeReserve(req)) == Some(req)
    ensures FromLE(EncodeReserve(req)[16..48]) == Value(req.deposit)
    ensures FromLE(EncodeReserve(req)[48..80]) == Value(req.tip)
  {
    ReserveFields(req);
    Pow256Of8();
    Pow256Of32();
    ValueBound(req.deposit);
    ValueBound(req.tip);
    FromTo(8, req.targetSlot);
    FromTo(8, req.gasLimit);
    FromTo(8, req.blobCount);
    FromTo(32, Value(req.deposit));
    FromTo(32, Value(req.tip));
    LimbsOfValue(req.deposit);
    LimbsOfValue(req.tip);
  }

  // The 88 bytes, field by field.
  lemma ReserveLayout(req: ReserveBlockSpaceRequest)
    ensures
      var b := EncodeReserve(req);
      && |b| == 88
      && FromLE(b[0..8]) == req.targetSlot
      && FromLE(b[8..16]) == req.gasLimit
      && FromLE(b[16..48]) == Value(req.deposit)
      && FromLE(b[48..80]) == Value(req.tip)
      && FromLE(b[80..88]) == req.blobCount
  {
    var b := EncodeReserve(req);
    ReserveRoundTrip(req);
    assert b[0..8] == b[..8] && b[80..88] == b[80..];
  }

  lemma Reencoded(s: Bytes)
    requires |s| == 8 || |s| == 32
    ensures |s| == 8 ==> ToLE(8, FromLE(s)) == s
    ensures |s| == 32 ==> ToLE(32, Value(Limbs(FromLE(s)))) == s
  {
    ToFrom(s);
    if |s| == 32 {
      Pow256Of32();
      FromLEBound(s);
      ValueOfLimbs(FromLE(s));
    }
  }

  lemma ReserveReencodes(b: Bytes)
    requires DecodeReserve(b).Some?
    ensures EncodeReserve(DecodeReserve(b).value) == b
  {
    Reencoded(b[..8]);
    Reencoded(b[8..16]);
    Reencoded(b[16..48]);
    Reencoded(b[48..80]);
    Reencoded(b[80..]);
    Slices(b);
  }

  lemma Slices(b: Bytes)
    requires |b| == 88
    ensures b[..8] + b[8..16] + b[16..48] + b[48..80] + b[80..] == b
  {
  }

  // Decoding accepts exactly the encodings.
  lemma ReserveDecodesOnlyEncodings(b: Bytes, req: ReserveBlockSpaceRequest)
    ensures DecodeReserve(b) == Some(req) <==> b == EncodeReserve(req)
  {
    ReserveRoundTrip(req);
    if DecodeReserve(b).Some? {
      ReserveReencodes(b);
    }
  }

  // ---------------------------------------------------------------- submission

  // The order in which the bytes of an identifier are appended.
  function SwapUuid(id: Uuid): (r: Uuid)
  {
    [id[3], id[2], id[1], id[0], id[5], id[4], id[7], id[6]] + id[8..]
  }

  method AppendUuidToLe(to: Bytes, id: Uuid) returns (r: Bytes)
    ensures r == to + SwapUuid(id)
  {
    r := to + [id[3], id[2], id[1], id[0]];
    r := r + [id[5], id[4]];
    r := r + [id[7], id[6]];
    r := r + id[8..];
  }

  // The fields time_low, time_mid and time_hi_and_version, big-endian in section 4.1.2 of
  // RFC 4122, come out little-endian; the remaining eight bytes stay in place.
  lemma SwapUuidReordersFields(id: Uuid)
    ensures FromLE(SwapUuid(id)[..4]) == FromBE(id[..4])
    ensures FromLE(SwapUuid(id)[4..6]) == FromBE(id[4..6])
    ensures FromLE(SwapUuid(id)[6..8]) == FromBE(id[6..8])
    ensures SwapUuid(id)[8..] == id[8..]
  {
    ReversedQuad(id[0], id[1], id[2], id[3]);
    ReversedPair(id[4], id[5]);
    ReversedPair(id[6], id[7]);
    var r := SwapUuid(id);
    assert id[..4] == [id[0], id[1], id[2], id[3]] && r[..4] == [id[3], id[2], id[1], id[0]];
    assert id[4..6] == [id[4], id[5]] && r[4..6] == [id[5], id[4]];
    assert id[6..8] == [id[6], id[7]] && r[6..8] == [id[7], id[6]];
  }

  lemma SwapUuidInvolution(id: Uuid)
    ensures SwapUuid(SwapUuid(id)) == id
  {
    var r := SwapUuid(SwapUuid(id));
    assert r[8..] == id[8..];
    assert id == [id[0], id[1], id[2], id[3], id[4], id[5], id[6], id[7]] + id[8..];
  }

  ghost function EncodeSubmit(id: Uuid, txHash: Hash): (b: Bytes)
    ensures |b| == 48
  {
    SwapUuid(id) + txHash
  }

  method SubmitPreimage(id: Uuid, txHash: Hash) returns (digest: Bytes)
    ensures digest == EncodeSubmit(id, txHash)
  {
    digest := [];
    digest := AppendUuidToLe(digest, id);
    digest := digest + txHash;
  }

  function DecodeSubmit(b: Bytes): Option<(Uuid, Hash)>
  {
    if |b| != 48 then None else Some((SwapUuid(b[..16]), b[16..]))
  }

  lemma SubmitDecodesOnlyEncodings(b: Bytes, id: Uuid, txHash: Hash)
    ensures DecodeSubmit(b) == Some((id, txHash)) <==> b == EncodeSubmit(id, txHash)
  {
    if b == EncodeSubmit(id, txHash) {
      assert b[..16] == SwapUuid(id) && b[16..] == txHash;
      SwapUuidInvolution(id);
    }
    if DecodeSubmit(b) == Some((id, txHash)) {
      SwapUuidInvolution(b[..16]);
      assert b == b[..16] + b[16..];
    }
  }

  // The 48 bytes: the identifier in swapped order, then the hash.
  lemma SubmitLayout(id: Uuid, txHash: Hash)
    ensures var b := EncodeSubmit(id, txHash);
            |b| == 48 && b[16..48] == txHash && b[8..16] == id[8..]
    ensures var b := EncodeSubmit(id, txHash);
            && FromLE(b[0..4]) == FromBE(id[..4])
            && FromLE(b[4..6]) == FromBE(id[4..6])
            && FromLE(b[6..8]) == FromBE(id[6..8])
  {
    var b, swapped := EncodeSubmit(id, txHash), SwapUuid(id);
    SwapUuidReordersFields(id);
    assert b[0..4] == swapped[..4] && b[4..6] == swapped[4..6] && b[6..8] == swapped[6..8] && b[8..16] == swapped[8..];
  }

  // ---------------------------------------------------------------- digests

  // A pair of distinct strings on which the hash function agrees.
  ghost predicate Collision(keccak: Bytes -> Hash, p: Bytes, q: Bytes) {
    p != q && keccak(p) == keccak(q)
  }

  method Digest(req: ReserveBlockSpaceRequest, keccak: Bytes -> Hash) returns (h: Hash)
    ensures h == keccak(EncodeReserve(req))
  {
    var digest := ReservePreimage(req);
    h := keccak(digest);
  }

  method SubmitTxDigest(id: Uuid, txHash: Hash, keccak: Bytes -> Hash) returns (h: Hash)
    ensures h == keccak(EncodeSubmit(id, txHash))
  {
    var digest := SubmitPreimage(id, txHash);
    h := keccak(digest);
  }

  // Signing one digest binds one message: two messages share a digest only when they
  // exhibit a collision of the hash function. That covers two reservations, two
  // submissions, and a reservation against a submission.
  lemma DigestsBind(keccak: Bytes -> Hash, a: ReserveBlockSpaceRequest, b: ReserveBlockSpaceRequest,
                    id: Uuid, tx: Hash, id': Uuid, tx': Hash)
    ensures keccak(EncodeReserve(a)) == keccak(EncodeReserve(b)) ==>
              a == b || Collision(keccak, EncodeReserve(a), EncodeReserve(b))
    ensures keccak(EncodeSubmit(id, tx)) == keccak(EncodeSubmit(id', tx')) ==>
              (id == id' && tx == tx') || Collision(keccak, EncodeSubmit(id, tx), EncodeSubmit(id', tx'))
    ensures keccak(EncodeReserve(a)) == keccak(EncodeSubmit(id, tx)) ==>
              Collision(keccak, EncodeReserve(a), EncodeSubmit(id, tx))
  {
    ReserveDecodesOnlyEncodings(EncodeReserve(a), a);
    ReserveDecodesOnlyEncodings(EncodeReserve(a), b);
    SubmitDecodesOnlyEncodings(EncodeSubmit(id, tx), id, tx);
    SubmitDecodesOnlyEncodings(EncodeSubmit(id, tx), id', tx');
    assert |EncodeReserve(a)| != |EncodeSubmit(id, tx)|;
  }
}
