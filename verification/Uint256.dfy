// 256-bit unsigned integers as the library stores them: four 64-bit limbs, least
// significant first. Arithmetic is in place, modulo 2^256, and the arguments may alias
// the receiver.
module Uint256 {
  import opened Words

  type U256 = s: seq<uint64> | |s| == 4 witness [0, 0, 0, 0]

  function Value(u: U256): (v: nat)
  {
    u[0] + TWO_64 * (u[1] + TWO_64 * (u[2] + TWO_64 * u[3]))
  }

  function Limbs(v: nat): (u: U256)
  {
    var q1 := v / TWO_64;
    var q2 := q1 / TWO_64;
    var q3 := q2 / TWO_64;
    [v % TWO_64, q1 % TWO_64, q2 % TWO_64, q3 % TWO_64]
  }

  // Division by zero yields zero.
  function Quotient(x: nat, y: nat): (q: nat)
    ensures q <= x
  {
    if y == 0 then 0 else
      assert x == y * (x / y) + x % y;
      QuotientAtMost(x, y, x / y);
      x / y
  }

  lemma QuotientAtMost(x: nat, y: nat, q: nat)
    requires y > 0 && y * q <= x
    ensures q <= x
  {
    assert (y - 1) * q >= 0;
  }

  lemma ValueBound(u: U256)
    ensures Value(u) < TWO_256
  {
  }

  lemma ValueOfLimbs(v: nat)
    requires v < TWO_256
    ensures Value(Limbs(v)) == v
  {
    var q1 := v / TWO_64;
    var q2 := q1 / TWO_64;
    assert q2 < TWO_128;
    assert q2 / TWO_64 < TWO_64;
  }

  lemma LimbsOfValue(u: U256)
    ensures Limbs(Value(u)) == u
  {
    var r2 := u[2] + TWO_64 * u[3];
    var r1 := u[1] + TWO_64 * r2;
    assert Value(u) == u[0] + TWO_64 * r1;
    assert Value(u) / TWO_64 == r1 && Value(u) % TWO_64 == u[0];
    assert r1 / TWO_64 == r2 && r1 % TWO_64 == u[1];
    assert r2 / TWO_64 == u[3] && r2 % TWO_64 == u[2];
  }

  // A number below 2^128 leaves the two high limbs empty.
  lemma HighLimbsEmpty(v: nat)
    requires v < TWO_128
    ensures Limbs(v)[2] == 0 && Limbs(v)[3] == 0
  {
    assert v / TWO_64 < TWO_64;
  }

  class Int {
    var limbs: U256

    constructor (v: uint64)
      ensures limbs == Limbs(v) && Value(limbs) == v
    {
      limbs := [v, 0, 0, 0];
    }

    method Mul(x: Int, y: Int) returns (z: Int)
      modifies this
      ensures z == this
      ensures Value(limbs) == old(Value(x.limbs) * Value(y.limbs)) % TWO_256
    {
      ghost var p := Value(x.limbs) * Value(y.limbs);
      ValueOfLimbs(p % TWO_256);
      limbs := Limbs(Value(x.limbs) * Value(y.limbs) % TWO_256);
      z := this;
    }

    method Add(x: Int, y: Int) returns (z: Int)
      modifies this
      ensures z == this
      ensures Value(limbs) == old(Value(x.limbs) + Value(y.limbs)) % TWO_256
    {
      ghost var p := Value(x.limbs) + Value(y.limbs);
      ValueOfLimbs(p % TWO_256);
      limbs := Limbs((Value(x.limbs) + Value(y.limbs)) % TWO_256);
      z := this;
    }

    method Div(x: Int, y: Int) returns (z: Int)
      modifies this
      ensures z == this
      ensures Value(limbs) == old(Quotient(Value(x.limbs), Value(y.limbs)))
    {
      ValueBound(x.limbs);
      ValueOfLimbs(Quotient(Value(x.limbs), Value(y.limbs)));
      limbs := Limbs(Quotient(Value(x.limbs), Value(y.limbs)));
      z := this;
    }
  }
}
