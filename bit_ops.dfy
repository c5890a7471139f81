/**
 * Bitwise operations on non-negative integers, defined by their binary
 * digits: bit `k` of a number, exclusive or, and the masks of consecutive
 * ones that the bit-flip mutations build with `((1 << width) - 1) << shift`.
 */
module BitOps {
  /** 2 to the power `n`: `1 << n`. */
  function Pow2(n: nat): (r: nat)
    ensures r >= 1
  {
    if n == 0 then 1 else 2 * Pow2(n - 1)
  }

  /** Bit `k` of `x` is set. */
  predicate Bit(x: nat, k: nat)
  {
    if k == 0 then x % 2 == 1 else Bit(x / 2, k - 1)
  }

  /** Bitwise exclusive or, digit by digit from the lowest. */
  function Xor(a: nat, b: nat): nat
    decreases a + b
  {
    if a == 0 && b == 0 then 0
    else (if a % 2 != b % 2 then 1 else 0) + 2 * Xor(a / 2, b / 2)
  }

  /** `((1 << width) - 1) << shift`: `width` ones starting at bit `shift`. */
  function Mask(shift: nat, width: nat): nat
  {
    (Pow2(width) - 1) * Pow2(shift)
  }

  /** Zero has no bit set. */
  lemma {:induction false} BitZero(k: nat)
    ensures !Bit(0, k)
  {
    if k > 0 {
      BitZero(k - 1);
    }
  }

  /** Each bit of an exclusive or is the exclusive or of the operands' bits. */
  lemma {:induction false} XorBit(a: nat, b: nat, k: nat)
    ensures Bit(Xor(a, b), k) == (Bit(a, k) != Bit(b, k))
    decreases a + b
  {
    if a == 0 && b == 0 {
      BitZero(k);
    } else {
      var d := if a % 2 != b % 2 then 1 else 0;
      var x := Xor(a / 2, b / 2);
      assert Xor(a, b) == d + 2 * x;
      assert (d + 2 * x) % 2 == d && (d + 2 * x) / 2 == x;
      if k > 0 {
        XorBit(a / 2, b / 2, k - 1);
      }
    }
  }

  /** Exclusive or with the same operand twice gives the number back. */
  lemma {:induction false} XorInvolution(a: nat, m: nat)
    ensures Xor(Xor(a, m), m) == a
    decreases a + m
  {
    if a != 0 || m != 0 {
      var d := if a % 2 != m % 2 then 1 else 0;
      var x := Xor(a / 2, m / 2);
      var c := Xor(a, m);
      assert c == d + 2 * x;
      assert c % 2 == d && c / 2 == x;
      if m == 0 {
        XorZero(a);
      }
      assert c != 0 || m != 0;
      XorInvolution(a / 2, m / 2);
      assert Xor(c, m) == (if c % 2 != m % 2 then 1 else 0) + 2 * Xor(c / 2, m / 2);
      assert Xor(c, m) == a % 2 + 2 * (a / 2);
    }
  }

  /** Exclusive or with zero changes nothing. */
  lemma {:induction false} XorZero(a: nat)
    ensures Xor(a, 0) == a
    decreases a
  {
    if a != 0 {
      XorZero(a / 2);
    }
  }

  /** An exclusive or of two `n`-bit numbers is an `n`-bit number. */
  lemma {:induction false} XorBound(a: nat, b: nat, n: nat)
    requires a < Pow2(n) && b < Pow2(n)
    ensures Xor(a, b) < Pow2(n)
    decreases n
  {
    if n == 0 {
      assert a == 0 && b == 0;
    } else if a != 0 || b != 0 {
      XorBound(a / 2, b / 2, n - 1);
    }
  }

  /** Exclusive or with all ones below bit `n` is the complement within `n` bits. */
  lemma {:induction false} XorOnes(a: nat, n: nat)
    requires a < Pow2(n)
    ensures Xor(a, Pow2(n) - 1) == Pow2(n) - 1 - a
    decreases n
  {
    if n > 0 {
      XorOnes(a / 2, n - 1);
      var m := Pow2(n) - 1;
      assert m % 2 == 1 && m / 2 == Pow2(n - 1) - 1;
      assert Xor(a, m) == (if a % 2 != 1 then 1 else 0) + 2 * (Pow2(n - 1) - 1 - a / 2);
    }
  }

  /** The bits of `2^w - 1` are the `w` lowest. */
  lemma {:induction false} OnesBit(w: nat, k: nat)
    ensures Bit(Pow2(w) - 1, k) <==> k < w
    decreases w
  {
    if w == 0 {
      BitZero(k);
    } else {
      var m := Pow2(w) - 1;
      assert m % 2 == 1 && m / 2 == Pow2(w - 1) - 1;
      if k > 0 {
        OnesBit(w - 1, k - 1);
      }
    }
  }

  /** Shifting left by `s` moves bit `k - s` to bit `k` and clears the bits below `s`. */
  lemma {:induction false} ShiftBit(x: nat, s: nat, k: nat)
    ensures Bit(x * Pow2(s), k) <==> k >= s && Bit(x, k - s)
    decreases s
  {
    if s > 0 {
      var y := x * Pow2(s - 1);
      assert x * Pow2(s) == 2 * y;
      assert (2 * y) % 2 == 0 && (2 * y) / 2 == y;
      if k > 0 {
        ShiftBit(x, s - 1, k - 1);
      }
    }
  }

  /** The bits of a mask are exactly the `width` bits from `shift` on. */
  lemma MaskBit(shift: nat, width: nat, k: nat)
    ensures Bit(Mask(shift, width), k) <==> shift <= k < shift + width
  {
    ShiftBit(Pow2(width) - 1, shift, k);
    if k >= shift {
      OnesBit(width, k - shift);
    }
  }

  /** Division and remainder by `2p` through division by 2 first. */
  lemma DivModTwice(x: nat, p: nat)
    requires p >= 1
    ensures x / (2 * p) == (x / 2) / p
    ensures (x % (2 * p)) / 2 == (x / 2) % p
    ensures (x % (2 * p)) % 2 == x % 2
  {
    var q := x / 2;
    var a := q / p;
    var b := q % p;
    assert x == 2 * p * a + (2 * b + x % 2);
    DivUnique(x, 2 * p, a, 2 * b + x % 2);
  }

  /** Euclidean division is unique. */
  lemma DivUnique(x: nat, d: nat, a: nat, t: nat)
    requires d >= 1 && t < d && x == d * a + t
    ensures x / d == a && x % d == t
  {
    var q := x / d;
    var r := x % d;
    assert d * q + r == d * a + t;
    if q > a {
      assert d * q - d * a == d * (q - a);
      MulAtLeast(d, q - a);
    } else if q < a {
      assert d * a - d * q == d * (a - q);
      MulAtLeast(d, a - q);
    }
  }

  /** A multiple by a positive factor is at least the number. */
  lemma MulAtLeast(d: nat, n: nat)
    requires n >= 1
    ensures d * n >= d
  {
    assert d * n == d * (n - 1) + d;
  }

  /** `x >> n`: `x` halved `n` times. */
  function Shr(x: nat, n: nat): nat
  {
    if n == 0 then x else Shr(x / 2, n - 1)
  }

  /** Shifting right by `n` divides by `2^n`. */
  lemma {:induction false} ShrDivides(x: nat, n: nat)
    ensures Shr(x, n) == x / Pow2(n)
  {
    if n > 0 {
      ShrDivides(x / 2, n - 1);
      DivModTwice(x, Pow2(n - 1));
    }
  }

  /** Bit `k` of `x >> n` is bit `k + n` of `x`. */
  lemma {:induction false} ShrBit(x: nat, n: nat, k: nat)
    ensures Bit(Shr(x, n), k) == Bit(x, k + n)
  {
    if n > 0 {
      ShrBit(x / 2, n - 1, k);
    }
  }

  /** Below bit `n`, `x % 2^n` has the bits of `x`. */
  lemma {:induction false} ModBit(x: nat, n: nat, k: nat)
    requires k < n
    ensures Bit(x % Pow2(n), k) == Bit(x, k)
    decreases n
  {
    DivModTwice(x, Pow2(n - 1));
    if k > 0 {
      ModBit(x / 2, n - 1, k - 1);
    }
  }

  /** A byte has 8 bits. */
  lemma Pow2Eight()
    ensures Pow2(8) == 256
  {
    assert Pow2(4) == 16;
  }
}
