/** Bytes as integers, and their exclusive or. */
module Bytes {
  type byte = x: int | 0 <= x < 256

  /** A Go string or byte slice. */
  type Text = seq<byte>

  /** Result of a Go call that may return an error, or panic. */
  datatype Result<+T> = Ok(value: T) | Err(reason: string) | Panic

  function XorBits(a: nat, b: nat): nat
    decreases a + b
  {
    if a == 0 && b == 0 then 0
    else (if a % 2 == b % 2 then 0 else 1) + 2 * XorBits(a / 2, b / 2)
  }

  function Pow2(n: nat): (r: nat)
    ensures r > 0
  {
    if n == 0 then 1 else 2 * Pow2(n - 1)
  }

  lemma {:induction false} XorBitsBelow(a: nat, b: nat, n: nat)
    requires a < Pow2(n) && b < Pow2(n)
    ensures XorBits(a, b) < Pow2(n)
    decreases n
  {
    if n > 0 {
      XorBitsBelow(a / 2, b / 2, n - 1);
    }
  }

  lemma {:induction false} XorBitsTwice(a: nat, b: nat)
    ensures XorBits(XorBits(a, b), b) == a
    decreases a + b
  {
    if a != 0 || b != 0 {
      XorBitsTwice(a / 2, b / 2);
      var x := XorBits(a, b);
      assert x / 2 == XorBits(a / 2, b / 2);
      assert x % 2 == if a % 2 == b % 2 then 0 else 1;
    }
  }

  lemma HalvesFirst(x: nat, p: nat)
    requires p > 0
    ensures x / (2 * p) == x / 2 / p
  {
    var q, r := x / 2 / p, x / 2 % p;
    assert x / 2 == p * q + r;
    assert x == 2 * p * q + (2 * r + x % 2);
    assert 2 * r + x % 2 < 2 * p;
    Quotient(x, 2 * p, q, 2 * r + x % 2);
  }

  lemma Quotient(x: nat, d: nat, q: nat, r: nat)
    requires d > 0 && x == d * q + r && r < d
    ensures x / d == q
  {
    var more := x / d - q;
    assert d * more == r - x % d;
    if more != 0 {
      AtLeast(d, more);
    }
  }

  lemma AtLeast(d: int, k: int)
    requires d > 0 && k != 0
    ensures d * k >= d || d * k <= -d
  {
  }

  /** Bit `i` of `x`, the lowest one first. */
  function Bit(x: nat, i: nat): nat {
    x / Pow2(i) % 2
  }

  lemma BitOfHalf(x: nat, i: nat)
    requires i > 0
    ensures Bit(x, i) == Bit(x / 2, i - 1)
  {
    HalvesFirst(x, Pow2(i - 1));
  }

  lemma {:induction false} XorBitsAt(a: nat, b: nat, i: nat)
    ensures Bit(XorBits(a, b), i) == if Bit(a, i) == Bit(b, i) then 0 else 1
    decreases i
  {
    if i == 0 {
      assert Pow2(0) == 1;
    } else {
      var x := XorBits(a, b);
      assert x / 2 == XorBits(a / 2, b / 2);
      XorBitsAt(a / 2, b / 2, i - 1);
      BitOfHalf(x, i);
      BitOfHalf(a, i);
      BitOfHalf(b, i);
    }
  }

  function Xor(a: byte, b: byte): byte {
    assert Pow2(8) == 256;
    XorBitsBelow(a, b, 8);
    XorBits(a, b)
  }

  /** A bit of the exclusive or is set exactly when the two bits differ. */
  lemma XorAt(a: byte, b: byte, i: nat)
    ensures Xor(a, b) / Pow2(i) % 2 == if a / Pow2(i) % 2 == b / Pow2(i) % 2 then 0 else 1
  {
    XorBitsAt(a, b, i);
  }

  /** Exclusive or, byte by byte. */
  function XorText(s: Text, t: Text): (r: Text)
    requires |s| == |t|
    ensures |r| == |s|
  {
    seq(|s|, i requires 0 <= i < |s| => Xor(s[i], t[i]))
  }

  lemma XorTextTwice(s: Text, t: Text)
    requires |s| == |t|
    ensures XorText(XorText(s, t), t) == s
  {
    forall i | 0 <= i < |s| ensures XorText(XorText(s, t), t)[i] == s[i] {
      XorBitsTwice(s[i], t[i]);
    }
  }
}
