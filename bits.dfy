/** Unsigned machine-word arithmetic on natural numbers.
 *
 *  The register layer works on unsigned words with the C++ operators
 *  `&`, `|`, `^`, `~`, `<<` and `>>`.  Here a word is a `nat`; the shifts are
 *  multiplication and floor division by a power of two, and the bitwise
 *  operators are defined digit by digit in base 2.  Every operator comes with
 *  a lemma that says which bits of its result are set, and `BitsEqual` lets
 *  two numbers be compared bit by bit.
 */
module Bits {

  /** 2 to the power n. */
  function Pow2(n: nat): (r: nat)
    ensures r > 0
  {
    if n == 0 then 1 else 2 * Pow2(n - 1)
  }

  /** Bit k of x, counting from the least significant bit (bit 0). */
  predicate BitAt(x: nat, k: nat)
  {
    if k == 0 then x % 2 == 1 else BitAt(x / 2, k - 1)
  }

  /** `x << n` on unbounded unsigned integers. */
  function Shl(x: nat, n: nat): nat
  {
    x * Pow2(n)
  }

  /** `x >> n` on unsigned integers: n halvings. */
  function Shr(x: nat, n: nat): nat
  {
    if n == 0 then x else Shr(x / 2, n - 1)
  }

  /** Bitwise `x & y`. */
  function And(x: nat, y: nat): nat
    decreases x
  {
    if x == 0 || y == 0 then 0
    else 2 * And(x / 2, y / 2) + (if x % 2 == 1 && y % 2 == 1 then 1 else 0)
  }

  /** Bitwise `x | y`. */
  function Or(x: nat, y: nat): nat
    decreases x + y
  {
    if x == 0 && y == 0 then 0
    else 2 * Or(x / 2, y / 2) + (if x % 2 == 1 || y % 2 == 1 then 1 else 0)
  }

  /** Bitwise `x ^ y`. */
  function Xor(x: nat, y: nat): nat
    decreases x + y
  {
    if x == 0 && y == 0 then 0
    else 2 * Xor(x / 2, y / 2) + (if (x % 2 == 1) != (y % 2 == 1) then 1 else 0)
  }

  /** Bitwise complement `~x` of a w-bit unsigned word: the low w bits are
      inverted and there are no bits at or above w. */
  function Not(x: nat, w: nat): nat
  {
    if w == 0 then 0
    else 2 * Not(x / 2, w - 1) + (if x % 2 == 1 then 0 else 1)
  }

  // ---------------------------------------------------------------------
  // Division by powers of two

  /** A positive multiple of p is at least p. */
  lemma {:induction false} MulAtLeast(a: nat, p: nat)
    requires a >= 1
    ensures a * p >= p
  {
    if a > 1 {
      MulAtLeast(a - 1, p);
      assert a * p == (a - 1) * p + p;
    }
  }

  /** Euclidean division is determined by any quotient/remainder pair. */
  lemma DivModUnique(x: int, p: int, q: int, r: int)
    requires p > 0 && 0 <= r < p && x == q * p + r
    ensures x / p == q && x % p == r
  {
    var q', r' := x / p, x % p;
    assert x == q' * p + r' && 0 <= r' < p;
    assert (q - q') * p == r' - r;
    if q > q' {
      MulAtLeast(q - q', p);
    } else if q < q' {
      assert (q' - q) * p == r - r';
      MulAtLeast(q' - q, p);
    }
  }

  /** Multiplication by a natural number is monotone. */
  lemma {:induction false} MulMonotone(a: nat, b: nat, p: nat)
    requires a <= b
    ensures a * p <= b * p
  {
    if a < b {
      MulMonotone(a, b - 1, p);
      assert b * p == (b - 1) * p + p;
    }
  }

  /** q is at most x / p exactly when q * p is at most x. */
  lemma DivLowerBound(x: nat, p: nat, q: nat)
    requires p > 0
    ensures q <= x / p <==> q * p <= x
  {
    assert x == (x / p) * p + x % p;
    if q <= x / p {
      MulMonotone(q, x / p, p);
    } else {
      MulMonotone(x / p + 1, q, p);
      assert (x / p + 1) * p == (x / p) * p + p;
    }
  }

  /** Dividing by 2p is halving and then dividing by p; the remainder is
      assembled from the two remainders. */
  lemma DivModTwice(x: nat, p: nat)
    requires p > 0
    ensures x / (2 * p) == (x / 2) / p
    ensures x % (2 * p) == 2 * ((x / 2) % p) + x % 2
  {
    var h := x / 2;
    assert h == (h / p) * p + h % p;
    assert x == (h / p) * (2 * p) + (2 * (h % p) + x % 2);
    DivModUnique(x, 2 * p, h / p, 2 * (h % p) + x % 2);
  }

  // ---------------------------------------------------------------------
  // Bit-level characterisations

  lemma {:induction false} BitZero(k: nat)
    ensures !BitAt(0, k)
  {
    if k > 0 {
      BitZero(k - 1);
    }
  }

  /** Bit j of 1 is set exactly when j is 0. */
  lemma {:induction false} BitOne(k: nat)
    ensures BitAt(1, k) <==> k == 0
  {
    if k > 0 {
      BitZero(k - 1);
    }
  }

  /** Two numbers with the same bits are equal. */
  lemma {:induction false} BitsEqual(x: nat, y: nat)
    requires forall k: nat :: BitAt(x, k) == BitAt(y, k)
    ensures x == y
    decreases x + y
  {
    if x != 0 || y != 0 {
      assert BitAt(x, 0) == BitAt(y, 0);
      forall k: nat
        ensures BitAt(x / 2, k) == BitAt(y / 2, k)
      {
        assert BitAt(x, k + 1) == BitAt(y, k + 1);
      }
      BitsEqual(x / 2, y / 2);
    }
  }

  /** A number below 2^n has no bit at or above n. */
  lemma {:induction false} BitAboveBound(x: nat, n: nat, k: nat)
    requires x < Pow2(n) && n <= k
    ensures !BitAt(x, k)
  {
    if n == 0 {
      BitZero(k);
    } else {
      BitAboveBound(x / 2, n - 1, k - 1);
    }
  }

  /** A number with no bit at or above n is below 2^n. */
  lemma {:induction false} BoundFromBits(x: nat, n: nat)
    requires forall k: nat :: n <= k ==> !BitAt(x, k)
    ensures x < Pow2(n)
  {
    if n == 0 {
      forall k: nat
        ensures BitAt(x, k) == BitAt(0, k)
      {
        BitZero(k);
      }
      BitsEqual(x, 0);
    } else {
      forall k: nat | n - 1 <= k
        ensures !BitAt(x / 2, k)
      {
        assert !BitAt(x, k + 1);
      }
      BoundFromBits(x / 2, n - 1);
    }
  }

  /** `x << n` moves every bit of x up by n places. */
  lemma {:induction false} BitShl(x: nat, n: nat, k: nat)
    ensures BitAt(Shl(x, n), k) <==> n <= k && BitAt(x, k - n)
  {
    if n > 0 {
      var y := Shl(x, n - 1);
      assert Shl(x, n) == 2 * y;
      if k > 0 {
        assert (2 * y) / 2 == y;
        BitShl(x, n - 1, k - 1);
      }
    }
  }

  /** `x >> n` moves every bit of x down by n places. */
  lemma {:induction false} BitShr(x: nat, n: nat, k: nat)
    ensures BitAt(Shr(x, n), k) <==> BitAt(x, n + k)
  {
    if n > 0 {
      BitShr(x / 2, n - 1, k);
    }
  }

  /** `x >> n` is floor division by 2^n. */
  lemma {:induction false} ShrIsDiv(x: nat, n: nat)
    ensures Shr(x, n) == x / Pow2(n)
  {
    if n > 0 {
      ShrIsDiv(x / 2, n - 1);
      DivModTwice(x, Pow2(n - 1));
    }
  }

  /** `x % 2^n` keeps exactly the bits of x below n. */
  lemma {:induction false} BitModPow2(x: nat, n: nat, k: nat)
    ensures BitAt(x % Pow2(n), k) <==> k < n && BitAt(x, k)
  {
    if n == 0 {
      BitZero(k);
    } else {
      DivModTwice(x, Pow2(n - 1));
      var h := (x / 2) % Pow2(n - 1);
      assert x % Pow2(n) == 2 * h + x % 2;
      if k > 0 {
        assert (2 * h + x % 2) / 2 == h;
        BitModPow2(x / 2, n - 1, k - 1);
      }
    }
  }

  /** 2^n - 1 has exactly the bits below n set. */
  lemma {:induction false} BitLowOnes(n: nat, k: nat)
    ensures BitAt(Pow2(n) - 1, k) <==> k < n
  {
    if n == 0 {
      BitZero(k);
    } else if k > 0 {
      assert (Pow2(n) - 1) / 2 == Pow2(n - 1) - 1;
      BitLowOnes(n - 1, k - 1);
    }
  }

  /** 2^n has exactly bit n set. */
  lemma BitPow2(n: nat, k: nat)
    ensures BitAt(Pow2(n), k) <==> k == n
  {
    BitShl(1, n, k);
    if n <= k {
      BitOne(k - n);
    }
  }

  lemma {:induction false} BitAnd(x: nat, y: nat, k: nat)
    ensures BitAt(And(x, y), k) <==> BitAt(x, k) && BitAt(y, k)
    decreases x
  {
    if x == 0 || y == 0 {
      BitZero(k);
    } else if k > 0 {
      BitAnd(x / 2, y / 2, k - 1);
    }
  }

  lemma {:induction false} BitOr(x: nat, y: nat, k: nat)
    ensures BitAt(Or(x, y), k) <==> BitAt(x, k) || BitAt(y, k)
    decreases x + y
  {
    if x == 0 && y == 0 {
      BitZero(k);
    } else if k > 0 {
      BitOr(x / 2, y / 2, k - 1);
    }
  }

  lemma {:induction false} BitXor(x: nat, y: nat, k: nat)
    ensures BitAt(Xor(x, y), k) <==> BitAt(x, k) != BitAt(y, k)
    decreases x + y
  {
    if x == 0 && y == 0 {
      BitZero(k);
    } else if k > 0 {
      BitXor(x / 2, y / 2, k - 1);
    }
  }

  lemma {:induction false} BitNot(x: nat, w: nat, k: nat)
    ensures BitAt(Not(x, w), k) <==> k < w && !BitAt(x, k)
  {
    if w == 0 {
      BitZero(k);
    } else if k > 0 {
      BitNot(x / 2, w - 1, k - 1);
    }
  }

  /** Numbers without common bits add up to their bitwise or. */
  lemma {:induction false} OrOfDisjointIsSum(a: nat, b: nat)
    requires And(a, b) == 0
    ensures Or(a, b) == a + b
    decreases a + b
  {
    if a != 0 || b != 0 {
      assert And(a / 2, b / 2) == 0 && !(a % 2 == 1 && b % 2 == 1) by {
        if a != 0 && b != 0 {
          assert And(a, b) == 2 * And(a / 2, b / 2) + (if a % 2 == 1 && b % 2 == 1 then 1 else 0);
        }
      }
      OrOfDisjointIsSum(a / 2, b / 2);
    }
  }

  /** Bit-level disjointness gives a zero `&`. */
  lemma AndZeroFromBits(a: nat, b: nat)
    requires forall k: nat :: !(BitAt(a, k) && BitAt(b, k))
    ensures And(a, b) == 0
  {
    forall k: nat
      ensures BitAt(And(a, b), k) == BitAt(0, k)
    {
      BitAnd(a, b, k);
      BitZero(k);
    }
    BitsEqual(And(a, b), 0);
  }
}
