// Little-endian base-256 expansions of natural numbers and their inverse.
module LittleEndian {
  import opened Words

  function Pow256(n: nat): (p: nat)
    ensures p > 0
  {
    if n == 0 then 1 else 256 * Pow256(n - 1)
  }

  // The n low-order base-256 digits of v, least significant first.
  function ToLE(n: nat, v: nat): (s: Bytes)
    ensures |s| == n
  {
    if n == 0 then [] else [v % 256] + ToLE(n - 1, v / 256)
  }

  function FromLE(s: Bytes): nat {
    if s == [] then 0 else s[0] + 256 * FromLE(s[1..])
  }

  // Most significant byte first, the order of the fields of a UUID.
  function FromBE(s: Bytes): nat {
    if s == [] then 0 else FromBE(s[..|s| - 1]) * 256 + s[|s| - 1]
  }

  lemma {:induction false} FromLEBound(s: Bytes)
    ensures FromLE(s) < Pow256(|s|)
  {
    if s != [] {
      FromLEBound(s[1..]);
    }
  }

  // Decoding an expansion gives the number back.
  lemma {:induction false} FromTo(n: nat, v: nat)
    requires v < Pow256(n)
    ensures FromLE(ToLE(n, v)) == v
  {
    if n > 0 {
      FromTo(n - 1, v / 256);
      assert ToLE(n, v)[1..] == ToLE(n - 1, v / 256);
    }
  }

  lemma FirstDigit(digit: uint8, rest: nat)
    ensures (digit + 256 * rest) % 256 == digit && (digit + 256 * rest) / 256 == rest
  {
  }

  // Re-encoding a decoded string gives the string back.
  lemma {:induction false} ToFrom(s: Bytes)
    ensures ToLE(|s|, FromLE(s)) == s
  {
    if s != [] {
      ToFrom(s[1..]);
      var rest := FromLE(s[1..]);
      FirstDigit(s[0], rest);
      assert ToLE(|s|, FromLE(s)) == [s[0]] + ToLE(|s| - 1, rest);
    }
  }

  lemma {:induction false} FromLEConcat(a: Bytes, b: Bytes)
    ensures FromLE(a + b) == FromLE(a) + Pow256(|a|) * FromLE(b)
  {
    if a == [] {
      assert a + b == b;
    } else {
      FromLEConcat(a[1..], b);
      assert (a + b)[1..] == a[1..] + b;
      MulAssoc(256, Pow256(|a| - 1), FromLE(b));
    }
  }

  lemma FirstByte(n: nat, v: nat)
    requires n > 0
    ensures ToLE(n, v) == [v % 256] + ToLE(n - 1, v / 256)
  {
  }

  lemma DigitBelow(x: nat, z: nat)
    ensures (x + 256 * z) % 256 == x % 256 && (x + 256 * z) / 256 == x / 256 + z
  {
  }

  // Two expansions side by side are the expansion of the combined number.
  lemma {:induction false} ToLEConcat(n: nat, m: nat, x: nat, y: nat)
    requires x < Pow256(n)
    ensures ToLE(n, x) + ToLE(m, y) == ToLE(n + m, x + Pow256(n) * y)
  {
    if n == 0 {
      assert ToLE(0, x) + ToLE(m, y) == ToLE(m, y);
    } else {
      var z := Pow256(n - 1) * y;
      ToLEConcat(n - 1, m, x / 256, y);
      MulAssoc(256, Pow256(n - 1), y);
      DigitBelow(x, z);
      FirstByte(n, x);
      FirstByte(n + m, x + 256 * z);
      assert [x % 256] + ToLE(n - 1, x / 256) + ToLE(m, y) == [x % 256] + (ToLE(n - 1, x / 256) + ToLE(m, y));
    }
  }

  // Four words of w digits each; `bcd` and `cd` are the numbers that the last three and the
  // last two of them spell.
  lemma ToLEConcat4(w: nat, a: nat, b: nat, c: nat, d: nat, bcd: nat, cd: nat)
    requires a < Pow256(w) && b < Pow256(w) && c < Pow256(w)
    requires cd == c + Pow256(w) * d && bcd == b + Pow256(w) * cd
    ensures ToLE(w, a) + (ToLE(w, b) + (ToLE(w, c) + ToLE(w, d)))
         == ToLE(w + (w + (w + w)), a + Pow256(w) * bcd)
  {
    ToLEConcat(w, w, c, d);
    ToLEConcat(w, w + w, b, cd);
    ToLEConcat(w, w + (w + w), a, bcd);
  }

  lemma Regroup(a: Bytes, b: Bytes, c: Bytes, d: Bytes)
    ensures a + b + c + d == a + (b + (c + d))
  {
  }

  lemma MulAssoc(x: nat, y: nat, z: nat)
    ensures x * (y * z) == (x * y) * z
  {
  }

  lemma Pow256Of8()
    ensures Pow256(8) == TWO_64
  {
    assert Pow256(8) == 256 * 256 * 256 * 256 * Pow256(4);
    assert Pow256(4) == 256 * 256 * 256 * 256 * Pow256(0);
  }

  // Reversing the bytes turns a big-endian number into a little-endian one.
  lemma ReversedPair(a: uint8, b: uint8)
    ensures FromLE([b, a]) == FromBE([a, b])
  {
    assert [b, a][1..] == [a];
    assert [a, b][..1] == [a];
    assert FromBE([a]) == FromBE([a][..0]) * 256 + a;
    assert FromLE([a]) == a + 256 * FromLE([a][1..]);
  }

  lemma ReversedQuad(a: uint8, b: uint8, c: uint8, d: uint8)
    ensures FromLE([d, c, b, a]) == FromBE([a, b, c, d])
  {
    assert [d, c, b, a] == [d, c] + [b, a];
    FromLEConcat([d, c], [b, a]);
    ReversedPair(c, d);
    ReversedPair(a, b);
    assert Pow256(2) == 256 * Pow256(1) && Pow256(1) == 256;
    assert [a, b, c, d][..3] == [a, b, c];
    assert [a, b, c][..2] == [a, b];
    assert [c, d][..1] == [c];
  }
}
