// The alignment macros: masks on unsigned words that wrap around, and what they
// compute when the alignment is a power of two.
module Align {

  function Pow2(k: nat): (r: nat)
    ensures r > 0
  {
    if k == 0 then 1 else 2 * Pow2(k - 1)
  }

  /** Bitwise and. */
  function And(a: nat, b: nat): nat
    decreases a
  {
    if a == 0 || b == 0 then 0
    else 2 * And(a / 2, b / 2) + if a % 2 == 1 && b % 2 == 1 then 1 else 0
  }

  /** Bitwise complement of a word of `w` bits. */
  function Not(w: nat, a: nat): nat
    requires a < Pow2(w)
  {
    Pow2(w) - 1 - a
  }

  /** Addition on words of `w` bits. */
  function Plus(w: nat, a: nat, b: nat): (r: nat)
    requires a < Pow2(w) && b < Pow2(w)
    ensures r < Pow2(w) && (a + b < Pow2(w) ==> r == a + b) && (a + b >= Pow2(w) ==> r == a + b - Pow2(w))
  {
    if a + b < Pow2(w) then a + b else a + b - Pow2(w)
  }

  function AlignUp(w: nat, x: nat, y: nat): nat
    requires x < Pow2(w) && 0 < y < Pow2(w)
  {
    And(Plus(w, x, y - 1), Not(w, y - 1))
  }

  function AlignDown(w: nat, x: nat, y: nat): nat
    requires x < Pow2(w) && 0 < y < Pow2(w)
  {
    And(x, Not(w, y - 1))
  }

  predicate IsAligned(x: nat, y: nat)
    requires y > 0
  {
    And(x, y - 1) == 0
  }

  predicate IsPowerOfTwo(x: nat) { x > 0 && And(x, x - 1) == 0 }

  function DivideUp(w: nat, x: nat, y: nat): nat
    requires x < Pow2(w) && 0 < y < Pow2(w)
  {
    Plus(w, x, y - 1) / y
  }

  // ----------------------------------------------------------- bit by bit

  lemma {:induction false} PowersGrow(k: nat, w: nat)
    requires k <= w
    ensures Pow2(k) <= Pow2(w) && (k < w ==> Pow2(k) < Pow2(w))
    decreases w
  {
    if k < w {
      PowersGrow(k, w - 1);
    }
  }

  lemma {:induction false} AndOnes(s: nat, w: nat)
    requires s < Pow2(w)
    ensures And(s, Pow2(w) - 1) == s
    decreases w
  {
    if s > 0 {
      AndOnes(s / 2, w - 1);
      assert (Pow2(w) - 1) / 2 == Pow2(w - 1) - 1;
    }
  }

  function Remainder(s: nat, p: nat): nat
    requires p > 0
  {
    s % p
  }

  /** Clearing the low `k` bits takes the remainder off. */
  lemma {:induction false} AndHigh(s: nat, w: nat, k: nat)
    requires s < Pow2(w) && k <= w && Pow2(k) <= Pow2(w)
    ensures And(s, Pow2(w) - Pow2(k)) == s - Remainder(s, Pow2(k))
    decreases k
  {
    if k == 0 {
      AndOnes(s, w);
    } else {
      hide And, Pow2, Remainder;
      PowersGrow(k - 1, w - 1);
      Doubles(w);
      Doubles(k);
      Halved(s, Pow2(w - 1));
      AndHigh(s / 2, w - 1, k - 1);
      OneBitHigher(s, Pow2(w - 1) - Pow2(k - 1), Pow2(k - 1), Pow2(w) - Pow2(k), Pow2(k));
    }
  }

  lemma Doubles(k: nat)
    requires k > 0
    ensures Pow2(k) == 2 * Pow2(k - 1)
  {
  }

  lemma Halved(s: nat, p: nat)
    requires s < 2 * p
    ensures s / 2 < p
  {
  }

  /** The step from the upper bits to one bit more. */
  lemma OneBitHigher(s: nat, mask: nat, p: nat, wider: nat, twice: nat)
    requires 0 < p && wider == 2 * mask && twice == 2 * p
    requires And(s / 2, mask) == s / 2 - Remainder(s / 2, p)
    ensures And(s, wider) == s - Remainder(s, twice)
  {
    hide And;
    AndEven(s, mask);
    HalfRemainder(s, p);
    LastBit(s, s / 2 % p, s % twice);
  }

  lemma LastBit(s: nat, half: nat, whole: nat)
    requires whole == 2 * half + s % 2
    ensures 2 * (s / 2 - half) == s - whole
  {
  }

  lemma AndEven(s: nat, m: nat)
    ensures And(s, 2 * m) == 2 * And(s / 2, m)
  {
    if s > 0 && m > 0 {
      assert 2 * m % 2 == 0 && 2 * m / 2 == m;
    } else if s > 0 {
      AndZero(s / 2);
    }
  }

  lemma AndZero(s: nat)
    ensures And(s, 0) == 0
  {
  }

  lemma Scaled(a: int, b: int, d: nat)
    requires a <= b
    ensures a * d <= b * d
  {
    assert b * d - a * d == (b - a) * d;
  }

  lemma Quotient(s: nat, d: nat, q: nat, r: nat)
    requires d > 0 && s == q * d + r && r < d
    ensures s / d == q && s % d == r
  {
    if s / d < q {
      Scaled(s / d + 1, q, d);
      assert false;
    } else if s / d > q {
      Scaled(q + 1, s / d, d);
      assert false;
    }
  }

  /** Keeping the low `k` bits takes the remainder. */
  lemma {:induction false} AndLow(x: nat, k: nat)
    ensures And(x, Pow2(k) - 1) == x % Pow2(k)
    decreases k
  {
    if k == 0 {
      AndZero(x);
    } else {
      AndLow(x / 2, k - 1);
      assert (Pow2(k) - 1) / 2 == Pow2(k - 1) - 1 && (Pow2(k) - 1) % 2 == 1;
      HalfRemainder(x, Pow2(k - 1));
      if x == 0 {
        assert 0 % Pow2(k) == 0;
      }
    }
  }

  lemma HalfRemainder(x: nat, p: nat)
    requires p > 0
    ensures x % (2 * p) == x % 2 + 2 * (x / 2 % p)
  {
    var q, r := x / 2 / p, x / 2 % p;
    assert x / 2 == q * p + r;
    assert x == q * (2 * p) + (2 * r + x % 2);
    Quotient(x, 2 * p, q, 2 * r + x % 2);
  }

  // ------------------------------------------------------------ main results

  predicate IsMultiple(m: nat, y: nat)
    requires y > 0
  {
    m % y == 0
  }

  /** `m` is the least multiple of `y` that is not below `x`. */
  ghost predicate IsCeiling(m: nat, x: nat, y: nat)
    requires y > 0
  {
    IsMultiple(m, y) && x <= m && forall n: nat :: IsMultiple(n, y) && x <= n ==> m <= n
  }

  lemma CeilingOf(x: nat, y: nat)
    requires y > 0
    ensures IsCeiling(x + (y - 1) - (x + (y - 1)) % y, x, y)
  {
    var q, r := (x + (y - 1)) / y, (x + (y - 1)) % y;
    assert x + (y - 1) == q * y + r;
    Quotient(q * y, y, q, 0);
    forall n: nat | IsMultiple(n, y) && x <= n ensures q * y <= n {
      NoneBetween(n, q, x, y);
    }
  }

  lemma NoneBetween(n: nat, q: nat, x: nat, y: nat)
    requires y > 0 && IsMultiple(n, y) && x <= n && q * y <= x + (y - 1)
    ensures q * y <= n
  {
    var m := n / y;
    assert n == m * y;
    if m < q {
      Scaled(m + 1, q, y);
    } else {
      Scaled(q, m, y);
    }
  }

  lemma AlignUpValue(w: nat, x: nat, k: nat)
    requires k < w && x < Pow2(w) && Pow2(k) < Pow2(w)
    ensures AlignUp(w, x, Pow2(k)) ==
      if x <= Pow2(w) - Pow2(k) then x + (Pow2(k) - 1) - (x + (Pow2(k) - 1)) % Pow2(k) else 0
  {
    hide And, Pow2;
    var y := Pow2(k);
    var s := Plus(w, x, y - 1);
    AndHigh(s, w, k);
    assert Not(w, y - 1) == Pow2(w) - y;
    if x > Pow2(w) - y {
      Quotient(s, y, 0, s);
    }
  }

  /**
   * For a power of two the macro gives the least multiple that is not below its
   * argument exactly if there is room for one in the word; otherwise it gives 0.
   */
  lemma AlignUpIsCeiling(w: nat, x: nat, k: nat)
    requires k < w && x < Pow2(w)
    ensures Pow2(k) < Pow2(w)
    ensures IsCeiling(AlignUp(w, x, Pow2(k)), x, Pow2(k)) <==> x <= Pow2(w) - Pow2(k)
    ensures x > Pow2(w) - Pow2(k) ==> AlignUp(w, x, Pow2(k)) == 0
  {
    hide AlignUp, IsMultiple;
    PowersGrow(k, w);
    AlignUpValue(w, x, k);
    if x <= Pow2(w) - Pow2(k) {
      hide IsCeiling;
      CeilingOf(x, Pow2(k));
    }
  }

  lemma AlignDownIsFloor(w: nat, x: nat, k: nat)
    requires k < w && x < Pow2(w)
    ensures Pow2(k) < Pow2(w) && AlignDown(w, x, Pow2(k)) == x - x % Pow2(k)
  {
    PowersGrow(k, w);
    AndHigh(x, w, k);
    assert Not(w, Pow2(k) - 1) == Pow2(w) - Pow2(k);
  }

  lemma IsAlignedMeansMultiple(x: nat, k: nat)
    ensures IsAligned(x, Pow2(k)) <==> x % Pow2(k) == 0
  {
    AndLow(x, k);
  }

  /** The test accepts exactly the powers of two. */
  lemma {:induction false} PowerOfTwoTest(x: nat)
    ensures IsPowerOfTwo(x) <==> exists k: nat :: x == Pow2(k)
  {
    if x == 0 {
    } else if x == 1 {
      assert Pow2(0) == 1;
      AndZero(1);
    } else if x % 2 == 1 {
      OddIsNone(x);
    } else {
      var h := x / 2;
      PowerOfTwoTest(h);
      EvenTest(h);
      if IsPowerOfTwo(x) {
        var k: nat :| h == Pow2(k);
        assert x == Pow2(k + 1);
      }
      forall k: nat | x == Pow2(k) ensures IsPowerOfTwo(x) {
        assert h == Pow2(k - 1);
      }
    }
  }

  lemma OddIsNone(x: nat)
    requires x > 1 && x % 2 == 1
    ensures !IsPowerOfTwo(x) && forall k: nat :: x != Pow2(k)
  {
    var h := x / 2;
    assert (x - 1) % 2 == 0 && (x - 1) / 2 == h;
    AndSelf(h);
    forall k: nat ensures x != Pow2(k) {
      assert k > 0 ==> Pow2(k) % 2 == 0;
    }
  }

  lemma {:induction false} AndSelf(h: nat)
    ensures And(h, h) == h
  {
    if h > 0 {
      AndSelf(h / 2);
    }
  }

  lemma EvenTest(h: nat)
    requires h > 0
    ensures And(2 * h, 2 * h - 1) == 2 * And(h, h - 1)
  {
    assert 2 * h / 2 == h && (2 * h - 1) / 2 == h - 1 && 2 * h % 2 == 0;
    if h == 1 {
      AndZero(1);
      AndZero(2);
    }
  }

  /** `n` blocks of size `y` hold `x` bytes, and none of them is to spare. */
  predicate IsBlockCount(n: nat, x: nat, y: nat)
  {
    x <= n * y && (n > 0 ==> (n - 1) * y < x)
  }

  lemma CeilingQuotient(x: nat, y: nat)
    requires y > 0
    ensures IsBlockCount((x + (y - 1)) / y, x, y)
  {
    var q, r := (x + (y - 1)) / y, (x + (y - 1)) % y;
    assert x + (y - 1) == q * y + r;
    if q > 0 {
      assert (q - 1) * y == q * y - y;
    }
  }

  lemma NoQuotient(s: nat, y: nat)
    requires s < y
    ensures s / y == 0
  {
  }

  /** The macro gives the number of blocks exactly if its sum fits into the word; otherwise it gives 0. */
  lemma DivideUpIsLeast(w: nat, x: nat, y: nat)
    requires x < Pow2(w) && 0 < y < Pow2(w)
    ensures IsBlockCount(DivideUp(w, x, y), x, y) <==> x + (y - 1) < Pow2(w)
    ensures x + (y - 1) >= Pow2(w) ==> DivideUp(w, x, y) == 0
  {
    if x + (y - 1) < Pow2(w) {
      CeilingQuotient(x, y);
    } else {
      NoQuotient(Plus(w, x, y - 1), y);
    }
  }
}
