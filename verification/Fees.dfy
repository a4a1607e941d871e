// The base fee recurrence of EIP-1559 and the deposit paid for a reservation.
module Fees {
  import opened Words
  import opened Uint256

  const ELASTICITY: nat := 2
  const MAX_CHANGE_DENOMINATOR: nat := 8
  const MIN_GAS_LIMIT: nat := 5000

  // The gas a block used and the gas it was allowed.
  datatype Fullness = Fullness(gasUsed: nat, gasLimit: nat)

  // What the Specification section of EIP-1559 requires of every block.
  ghost predicate ValidBlock(b: Fullness) {
    b.gasLimit >= MIN_GAS_LIMIT && b.gasUsed <= b.gasLimit
  }

  function Max(a: nat, b: nat): nat {
    if a >= b then a else b
  }

  // A block far below any valid gas limit would have a zero target to divide by.
  predicate Divisible(b: Fullness) {
    b.gasLimit / ELASTICITY > 0 || b.gasUsed == 0
  }

  function FeeDelta(fee: nat, gasDelta: nat, target: nat): nat
    requires target > 0
  {
    var scaled: nat := fee * gasDelta;
    var quotient: nat := scaled / target;
    quotient / MAX_CHANGE_DENOMINATOR
  }

  // The base fee of the block after one with this base fee and fullness (Specification
  // section of EIP-1559).
  function NextBaseFee(fee: nat, b: Fullness): nat
    requires Divisible(b)
  {
    var target := b.gasLimit / ELASTICITY;
    if b.gasUsed == target then
      fee
    else if b.gasUsed > target then
      fee + Max(1, FeeDelta(fee, b.gasUsed - target, target))
    else
      var delta := FeeDelta(fee, target - b.gasUsed, target);
      if delta <= fee then fee - delta else 0
  }

  // The base fee after a chain of blocks.
  ghost function FeeAfter(fee: nat, blocks: seq<Fullness>): nat
    requires ValidChain(blocks)
    decreases |blocks|
  {
    if blocks == [] then fee else FeeAfter(NextBaseFee(fee, blocks[0]), blocks[1..])
  }

  ghost predicate ValidChain(blocks: seq<Fullness>) {
    forall i | 0 <= i < |blocks| :: ValidBlock(blocks[i])
  }

  // The base fee rises exactly after a block above its target, and a block below it takes
  // off at most an eighth.
  lemma BaseFeeFollowsDemand(fee: nat, b: Fullness)
    requires Divisible(b)
    ensures
      var target, next := b.gasLimit / ELASTICITY, NextBaseFee(fee, b);
      && (next > fee <==> b.gasUsed > target)
      && (b.gasUsed == target ==> next == fee)
      && fee - fee / 8 <= next
  {
    var target := b.gasLimit / ELASTICITY;
    if b.gasUsed < target {
      var delta := target - b.gasUsed;
      MulMonotone(fee, delta, target);
      DivisionFloor(fee * delta, target);
      Cancel(fee * delta / target, fee, target);
      assert FeeDelta(fee, delta, target) <= fee / 8;
    }
  }

  // The base fee after a block, without dividing: it moves by the largest number x for which
  // 8 * t * x does not exceed the fee times the distance of the gas used from the target t,
  // but it rises by at least 1.
  ghost predicate IsNextBaseFee(fee: nat, b: Fullness, next: nat) {
    var t := b.gasLimit / 2;
    if b.gasUsed == t then
      next == fee
    else if b.gasUsed < t then
      next <= fee && 8 * t * (fee - next) <= fee * (t - b.gasUsed) < 8 * t * (fee - next + 1)
    else
      && next > fee
      && fee * (b.gasUsed - t) < 8 * t * (next - fee + 1)
      && (next == fee + 1 || 8 * t * (next - fee) <= fee * (b.gasUsed - t))
  }

  lemma NextBaseFeeExactly(fee: nat, b: Fullness, next: nat)
    requires Divisible(b)
    ensures NextBaseFee(fee, b) == next <==> IsNextBaseFee(fee, b, next)
  {
    var t := b.gasLimit / 2;
    BaseFeeFollowsDemand(fee, b);
    if b.gasUsed < t {
      var n := fee * (t - b.gasUsed);
      DeltaBelow(fee, t - b.gasUsed, t);
      if next <= fee {
        FeeDeltaExactly(fee, t - b.gasUsed, t, fee - next);
      }
    } else if b.gasUsed > t {
      FeeDeltaExactly(fee, b.gasUsed - t, t, FeeDelta(fee, b.gasUsed - t, t));
      if next > fee {
        RiseExactly(fee * (b.gasUsed - t), 8 * t, FeeDelta(fee, b.gasUsed - t, t), next - fee);
      }
    }
  }

  lemma FeeDeltaExactly(fee: nat, gasDelta: nat, t: nat, x: nat)
    requires t > 0
    ensures FeeDelta(fee, gasDelta, t) == x <==> 8 * t * x <= fee * gasDelta < 8 * t * (x + 1)
  {
    var n := fee * gasDelta;
    var q := n / t;
    DividedTwice(n, t, q, q / 8);
    if 8 * t * x <= n < 8 * t * (x + 1) {
      SameQuotient(n, 8 * t, x, q / 8);
    }
  }

  lemma DividedTwice(n: nat, t: nat, q: nat, x: nat)
    requires t > 0 && q == n / t && x == q / 8
    ensures 8 * t * x <= n < 8 * t * (x + 1)
  {
    assert t * q <= n < t * (q + 1);
    MulMonotone(t, 8 * x, q);
    MulMonotone(t, q + 1, 8 * (x + 1));
  }

  lemma SameQuotient(n: nat, d: nat, x: nat, y: nat)
    requires d * x <= n < d * (x + 1) && d * y <= n < d * (y + 1)
    ensures x == y
  {
    if x < y {
      MulMonotone(d, x + 1, y);
    } else if y < x {
      MulMonotone(d, y + 1, x);
    }
  }

  // A rise is the quotient, or 1 if that is 0.
  lemma RiseExactly(n: nat, d: nat, q: nat, x: nat)
    requires d * q <= n < d * (q + 1) && x > 0
    ensures x == Max(1, q) <==> n < d * (x + 1) && (x == 1 || d * x <= n)
  {
    if n < d * (x + 1) && (x == 1 || d * x <= n) {
      if d * x <= n {
        SameQuotient(n, d, q, x);
      } else if q >= 1 {
        MulMonotone(d, 1, q);
      }
    }
    if x == Max(1, q) && q == 0 {
      MulMonotone(d, 1, 2);
    }
  }

  // A fall is at most an eighth, so it is never cut off at zero.
  lemma DeltaBelow(fee: nat, gasDelta: nat, t: nat)
    requires t > 0 && gasDelta <= t
    ensures FeeDelta(fee, gasDelta, t) <= fee
  {
    MulMonotone(fee, gasDelta, t);
    DivisionFloor(fee * gasDelta, t);
    Cancel(fee * gasDelta / t, fee, t);
  }

  // ---------------------------------------------------------------- headroom

  // An upper bound on one step: an odd gas limit lets a full block exceed twice its
  // target by one unit of gas, hence 2501 / 2500 instead of 1.
  ghost function Growth(fee: nat): nat {
    fee + Max(1, fee * 2501 / 20000)
  }

  ghost function GrowthN(n: nat, fee: nat): nat {
    if n == 0 then fee else GrowthN(n - 1, Growth(fee))
  }

  lemma DeltaBound(fee: nat, delta: nat, target: nat)
    requires target >= 2500 && delta <= target + 1
    ensures FeeDelta(fee, delta, target) <= fee * 2501 / 20000
  {
    var q := fee * delta / target;
    DivisionFloor(fee * delta, target);
    calc {
      (q * 2500) * target;
    ==
      (q * target) * 2500;
    <=
      (fee * delta) * 2500;
    ==
      fee * (delta * 2500);
    <= { MulMonotone(fee, delta * 2500, 2501 * target); }
      fee * (2501 * target);
    ==
      (fee * 2501) * target;
    }
    Cancel(q * 2500, fee * 2501, target);
    assert FeeDelta(fee, delta, target) == q / 8;
  }

  lemma DivisionFloor(x: nat, d: nat)
    requires d > 0
    ensures (x / d) * d <= x
  {
  }

  lemma MulMonotone(k: nat, a: nat, b: nat)
    requires a <= b
    ensures k * a <= k * b
  {
  }

  lemma Cancel(a: nat, b: nat, t: nat)
    requires t > 0 && a * t <= b * t
    ensures a <= b
  {
    if a > b {
      MulMonotone(t, b + 1, a);
      assert false;
    }
  }

  lemma StepBound(fee: nat, b: Fullness)
    requires ValidBlock(b)
    ensures NextBaseFee(fee, b) <= Growth(fee)
  {
    var target := b.gasLimit / 2;
    if b.gasUsed > target {
      DeltaBound(fee, b.gasUsed - target, target);
    }
  }

  lemma GrowthMonotone(a: nat, b: nat)
    requires a <= b
    ensures Growth(a) <= Growth(b)
  {
    assert a * 2501 <= b * 2501;
  }

  lemma {:induction false} GrowthNMonotone(n: nat, a: nat, b: nat)
    requires a <= b
    ensures GrowthN(n, a) <= GrowthN(n, b)
  {
    if n > 0 {
      GrowthMonotone(a, b);
      GrowthNMonotone(n - 1, Growth(a), Growth(b));
    }
  }

  lemma {:induction false} ChainBound(fee: nat, blocks: seq<Fullness>, n: nat)
    requires ValidChain(blocks) && |blocks| <= n
    ensures FeeAfter(fee, blocks) <= GrowthN(n, fee)
    decreases n
  {
    if n > 0 {
      if blocks == [] {
        ChainBound(fee, blocks, n - 1);
        GrowthNMonotone(n - 1, fee, Growth(fee));
      } else {
        StepBound(fee, blocks[0]);
        ChainBound(NextBaseFee(fee, blocks[0]), blocks[1..], n - 1);
        GrowthNMonotone(n - 1, NextBaseFee(fee, blocks[0]), Growth(fee));
      }
    }
  }

  lemma FiveGrowths(fee: nat)
    requires fee >= 5
    ensures GrowthN(5, fee) <= 2 * fee
  {
    var f1 := Growth(fee);
    var f2 := Growth(f1);
    var f3 := Growth(f2);
    var f4 := Growth(f3);
    var f5 := Growth(f4);
    assert GrowthN(3, f2) == GrowthN(2, f3) == GrowthN(1, f4) == f5;
    assert GrowthN(5, fee) == GrowthN(4, f1) == GrowthN(3, f2);
  }

  const FULL: Fullness := Fullness(30_000_000, 30_000_000)

  ghost function FullBlocks(n: nat): (s: seq<Fullness>)
    ensures |s| == n && ValidChain(s)
  {
    seq(n, i => FULL)
  }

  lemma FullStep(fee: nat)
    ensures NextBaseFee(fee, FULL) == fee + Max(1, fee / 8)
  {
    assert fee * 15_000_000 / 15_000_000 == fee;
  }

  lemma {:induction false} FullChain(fee: nat, n: nat)
    requires n > 0
    ensures FeeAfter(fee, FullBlocks(n)) == FeeAfter(fee + Max(1, fee / 8), FullBlocks(n - 1))
  {
    FullStep(fee);
    assert FullBlocks(n)[0] == FULL;
    assert FullBlocks(n)[1..] == FullBlocks(n - 1);
  }

  // The fee cap is twice the base fee F expected for the next block. It covers that block
  // and the five after it for every chain of valid blocks exactly when F is at least 5.
  lemma HeadroomExactly(fee: nat)
    ensures fee >= 5 <==>
            forall blocks: seq<Fullness> | ValidChain(blocks) && |blocks| <= 5 :: FeeAfter(fee, blocks) <= 2 * fee
  {
    if fee >= 5 {
      forall blocks: seq<Fullness> | ValidChain(blocks) && |blocks| <= 5
        ensures FeeAfter(fee, blocks) <= 2 * fee
      {
        ChainBound(fee, blocks, 5);
        FiveGrowths(fee);
      }
    } else {
      FiveFullBlocksFromBelow(fee, 5);
      assert FeeAfter(fee, FullBlocks(5)) > 2 * fee;
    }
  }

  // No block takes anything off a fee below 8.
  lemma FloorKept(fee: nat, b: Fullness, floor: nat)
    requires floor <= 7 && fee >= floor && Divisible(b)
    ensures NextBaseFee(fee, b) >= floor
  {
    BaseFeeFollowsDemand(fee, b);
  }

  lemma {:induction false} FloorKeptByChain(fee: nat, blocks: seq<Fullness>, floor: nat)
    requires floor <= 7 && fee >= floor && ValidChain(blocks)
    ensures FeeAfter(fee, blocks) >= floor
    decreases |blocks|
  {
    if blocks != [] {
      assert ValidBlock(blocks[0]);
      FloorKept(fee, blocks[0], floor);
      FloorKeptByChain(NextBaseFee(fee, blocks[0]), blocks[1..], floor);
    }
  }

  ghost predicate Headroom(fee: nat) {
    forall blocks: seq<Fullness> | ValidChain(blocks) && |blocks| <= 5 :: FeeAfter(fee, blocks) <= 2 * fee
  }

  // A chain whose base fee was once 5 or more never leaves the range where the cap has this
  // headroom, and no lower fee ensures it.
  lemma HeadroomIsKeptExactly(fee: nat)
    ensures fee >= 5 <==> forall past: seq<Fullness> | ValidChain(past) :: Headroom(FeeAfter(fee, past))
  {
    if fee >= 5 {
      forall past: seq<Fullness> | ValidChain(past)
        ensures Headroom(FeeAfter(fee, past))
      {
        FloorKeptByChain(fee, past, 5);
        HeadroomExactly(FeeAfter(fee, past));
      }
    } else {
      HeadroomExactly(fee);
      assert FeeAfter(fee, []) == fee;
    }
  }

  // Below 8 a full block adds the minimum increment of one.
  lemma {:induction false} FiveFullBlocksFromBelow(fee: nat, n: nat)
    requires fee + n <= 9
    ensures FeeAfter(fee, FullBlocks(n)) == fee + n
    decreases n
  {
    if n > 0 {
      FullChain(fee, n);
      FiveFullBlocksFromBelow(fee + 1, n - 1);
    }
  }

  ghost function FullGrowth(n: nat, fee: nat): nat {
    if n == 0 then fee else FullGrowth(n - 1, fee + Max(1, fee / 8))
  }

  lemma {:induction false} FullChainGrowth(fee: nat, n: nat)
    ensures FeeAfter(fee, FullBlocks(n)) == FullGrowth(n, fee)
    decreases n
  {
    if n > 0 {
      FullChain(fee, n);
      FullChainGrowth(fee + Max(1, fee / 8), n - 1);
    }
  }

  lemma SixGrowths(fee: nat)
    requires fee >= 207
    ensures FullGrowth(6, fee) > 2 * fee
  {
    if fee < 224 {
      SixSmallGrowths(fee);
    } else if fee < 245 {
      SixMiddleGrowths(fee);
    } else if fee < 264 {
      SixLaterGrowths(fee);
    } else {
      SixLargeGrowths(fee);
    }
  }

  lemma SixLargeGrowths(fee: nat)
    requires fee >= 264
    ensures FullGrowth(6, fee) > 2 * fee
  {
    var f1 := fee + fee / 8;
    var f2 := f1 + f1 / 8;
    var f3 := f2 + f2 / 8;
    assert FullGrowth(6, fee) == FullGrowth(5, f1) == FullGrowth(4, f2) == FullGrowth(3, f3);
    ThreeGrowths(fee);
    ThreeGrowths(f3);
  }

  lemma ThreeGrowths(fee: nat)
    requires fee >= 8
    ensures
      var f1 := fee + fee / 8;
      var f2 := f1 + f1 / 8;
      var f3 := f2 + f2 / 8;
      FullGrowth(3, fee) == f3 && 512 * f3 >= 729 * fee - 1519
  {
    var f1 := fee + fee / 8;
    var f2 := f1 + f1 / 8;
    var f3 := f2 + f2 / 8;
    assert FullGrowth(3, fee) == FullGrowth(2, f1) == FullGrowth(1, f2) == f3;
    assert 8 * f1 >= 9 * fee - 7 && 8 * f2 >= 9 * f1 - 7 && 8 * f3 >= 9 * f2 - 7;
  }

  // The fee after a full block: an eighth more, rounded down.
  ghost predicate Eighth(f: nat, g: nat) {
    8 * g <= 9 * f < 8 * g + 8
  }

  ghost predicate Eighths(f0: nat, f1: nat, f2: nat, f3: nat, f4: nat, f5: nat, f6: nat) {
    && f0 >= 8
    && Eighth(f0, f1) && Eighth(f1, f2) && Eighth(f2, f3) && Eighth(f3, f4) && Eighth(f4, f5) && Eighth(f5, f6)
  }

  lemma EighthAdded(n: nat, fee: nat, next: nat)
    requires fee >= 8 && Eighth(fee, next)
    ensures FullGrowth(n + 1, fee) == FullGrowth(n, next) && next >= fee
  {
  }

  lemma {:induction false} FullGrowthMonotone(n: nat, a: nat, b: nat)
    requires a <= b
    ensures FullGrowth(n, a) <= FullGrowth(n, b)
  {
    if n > 0 {
      FullGrowthMonotone(n - 1, a + Max(1, a / 8), b + Max(1, b / 8));
    }
  }

  lemma SixEighths(f0: nat, f1: nat, f2: nat, f3: nat, f4: nat, f5: nat, f6: nat, fee: nat)
    requires Eighths(f0, f1, f2, f3, f4, f5, f6) && f0 <= fee
    ensures FullGrowth(6, f0) == f6 <= FullGrowth(6, fee)
  {
    FullGrowthMonotone(6, f0, fee);
    EighthAdded(5, f0, f1);
    EighthAdded(4, f1, f2);
    EighthAdded(3, f2, f3);
    EighthAdded(2, f3, f4);
    EighthAdded(1, f4, f5);
    EighthAdded(0, f5, f6);
  }

  // Just above the bound the margin is small, so the chains are written out. One chain
  // serves every fee up to half of where it ends.
  lemma SixSmallGrowths(fee: nat)
    requires 207 <= fee < 224
    ensures FullGrowth(6, fee) > 2 * fee
  {
    if fee <= 207 {
      SixEighths(207, 232, 261, 293, 329, 370, 416, fee);
    } else if fee <= 208 {
      SixEighths(208, 234, 263, 295, 331, 372, 418, fee);
    } else if fee <= 210 {
      SixEighths(209, 235, 264, 297, 334, 375, 421, fee);
    } else if fee <= 212 {
      SixEighths(211, 237, 266, 299, 336, 378, 425, fee);
    } else if fee <= 213 {
      SixEighths(213, 239, 268, 301, 338, 380, 427, fee);
    } else if fee <= 214 {
      SixEighths(214, 240, 270, 303, 340, 382, 429, fee);
    } else if fee <= 215 {
      SixEighths(215, 241, 271, 304, 342, 384, 432, fee);
    } else if fee <= 217 {
      SixEighths(216, 243, 273, 307, 345, 388, 436, fee);
    } else if fee <= 218 {
      SixEighths(218, 245, 275, 309, 347, 390, 438, fee);
    } else if fee <= 219 {
      SixEighths(219, 246, 276, 310, 348, 391, 439, fee);
    } else if fee <= 220 {
      SixEighths(220, 247, 277, 311, 349, 392, 441, fee);
    } else if fee <= 222 {
      SixEighths(221, 248, 279, 313, 352, 396, 445, fee);
    } else {
      SixEighths(223, 250, 281, 316, 355, 399, 448, fee);
    }
  }

  lemma SixMiddleGrowths(fee: nat)
    requires 224 <= fee < 245
    ensures FullGrowth(6, fee) > 2 * fee
  {
    if fee <= 225 {
      SixEighths(224, 252, 283, 318, 357, 401, 451, fee);
    } else if fee <= 227 {
      SixEighths(226, 254, 285, 320, 360, 405, 455, fee);
    } else if fee <= 229 {
      SixEighths(228, 256, 288, 324, 364, 409, 460, fee);
    } else if fee <= 230 {
      SixEighths(230, 258, 290, 326, 366, 411, 462, fee);
    } else if fee <= 231 {
      SixEighths(231, 259, 291, 327, 367, 412, 463, fee);
    } else if fee <= 233 {
      SixEighths(232, 261, 293, 329, 370, 416, 468, fee);
    } else if fee <= 234 {
      SixEighths(234, 263, 295, 331, 372, 418, 470, fee);
    } else if fee <= 236 {
      SixEighths(235, 264, 297, 334, 375, 421, 473, fee);
    } else if fee <= 238 {
      SixEighths(237, 266, 299, 336, 378, 425, 478, fee);
    } else if fee <= 239 {
      SixEighths(239, 268, 301, 338, 380, 427, 480, fee);
    } else if fee <= 240 {
      SixEighths(240, 270, 303, 340, 382, 429, 482, fee);
    } else if fee <= 242 {
      SixEighths(241, 271, 304, 342, 384, 432, 486, fee);
    } else {
      SixEighths(243, 273, 307, 345, 388, 436, 490, fee);
    }
  }

  lemma SixLaterGrowths(fee: nat)
    requires 245 <= fee < 264
    ensures FullGrowth(6, fee) > 2 * fee
  {
    if fee <= 245 {
      SixEighths(245, 275, 309, 347, 390, 438, 492, fee);
    } else if fee <= 246 {
      SixEighths(246, 276, 310, 348, 391, 439, 493, fee);
    } else if fee <= 247 {
      SixEighths(247, 277, 311, 349, 392, 441, 496, fee);
    } else if fee <= 249 {
      SixEighths(248, 279, 313, 352, 396, 445, 500, fee);
    } else if fee <= 251 {
      SixEighths(250, 281, 316, 355, 399, 448, 504, fee);
    } else if fee <= 253 {
      SixEighths(252, 283, 318, 357, 401, 451, 507, fee);
    } else if fee <= 255 {
      SixEighths(254, 285, 320, 360, 405, 455, 511, fee);
    } else if fee <= 258 {
      SixEighths(256, 288, 324, 364, 409, 460, 517, fee);
    } else if fee <= 259 {
      SixEighths(259, 291, 327, 367, 412, 463, 520, fee);
    } else if fee <= 261 {
      SixEighths(260, 292, 328, 369, 415, 466, 524, fee);
    } else {
      SixEighths(262, 294, 330, 371, 417, 469, 527, fee);
    }
  }

  // Five blocks is the limit: from any base fee of at least 207, six full blocks in a row
  // exceed the cap.
  lemma SixthBlockExceedsCap(fee: nat)
    requires fee >= 207
    ensures FeeAfter(fee, FullBlocks(6)) > 2 * fee
  {
    FullChainGrowth(fee, 6);
    SixGrowths(fee);
  }

  // From the fee just below they reach it and no more.
  lemma SixthBlockMeetsCap(fee: nat)
    requires fee == 206
    ensures FeeAfter(fee, FullBlocks(6)) == 2 * fee
  {
    FullChainGrowth(fee, 6);
    SixEighths(fee, 231, 259, 291, 327, 367, 412, fee);
  }

  // ---------------------------------------------------------------- deposit

  // What the quote charges for the transaction's gas and blobs, as an exact integer.
  function Price(gas: uint64, gasPrice: uint64, nBlobs: uint32, blobPrice: uint64): nat {
    gas * gasPrice + nBlobs * blobPrice
  }

  lemma PriceBound(gas: uint64, gasPrice: uint64, nBlobs: uint32, blobPrice: uint64)
    ensures gas * gasPrice < TWO_128
    ensures nBlobs * blobPrice < TWO_128
    ensures Price(gas, gasPrice, nBlobs, blobPrice) / 2 < TWO_128
  {
    ProductBound(gas, gasPrice, TWO_64 - 1, TWO_64 - 1);
    ProductBound(nBlobs, blobPrice, TWO_32 - 1, TWO_64 - 1);
  }

  lemma NoWrap(x: nat)
    requires x < 2 * TWO_128
    ensures x % TWO_256 == x
  {
  }

  lemma ProductBound(a: nat, b: nat, x: nat, y: nat)
    requires a <= x && b <= y
    ensures a * b <= x * y
  {
    MulMonotone(a, b, y);
    MulMonotone(y, a, x);
  }

  // Half the price, computed in place: `gas` is receiver and argument of every step, and
  // the sum is divided where it stands. No step wraps modulo 2^256, and the result leaves
  // the two high limbs empty.
  method Deposit(txGas: uint64, gasPrice: uint64, nBlobs: uint32, blobPrice: uint64) returns (deposit: U256)
    ensures Value(deposit) == (txGas * gasPrice + nBlobs * blobPrice) / 2
    ensures deposit == Limbs(Price(txGas, gasPrice, nBlobs, blobPrice) / 2)
    ensures deposit[2] == 0 && deposit[3] == 0
    ensures var price := Price(txGas, gasPrice, nBlobs, blobPrice); 2 * Value(deposit) == price - price % 2
  {
    PriceBound(txGas, gasPrice, nBlobs, blobPrice);
    NoWrap(txGas * gasPrice);
    NoWrap(nBlobs * blobPrice);
    NoWrap(Price(txGas, gasPrice, nBlobs, blobPrice));
    var gas := new Int(txGas);
    var factor := new Int(gasPrice);
    gas := gas.Mul(gas, factor);
    var blob := new Int(nBlobs);
    factor := new Int(blobPrice);
    blob := blob.Mul(blob, factor);
    var half := HalfSum(gas, blob);
    deposit := half.limbs;
    HighLimbsEmpty(Value(deposit));
    LimbsOfValue(deposit);
  }

  // The sum replaces `gas`, and its half replaces the sum.
  method HalfSum(gas: Int, blob: Int) returns (half: Int)
    modifies gas
    ensures half == gas
    ensures Value(gas.limbs) == (old(Value(gas.limbs) + Value(blob.limbs)) % TWO_256) / 2
  {
    var sum := gas.Add(gas, blob);
    var two := new Int(2);
    half := sum.Div(gas, two);
  }
}
