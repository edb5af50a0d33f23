/**
  The power-of-two arithmetic behind the merge tree (crates/coordinator/src/merge.rs, lines 370-408):
  the bit trick, the search for the largest power below a number, and the split point they decide.
*/
module PowersOfTwo {
  import opened Wrappers

  /** One more than the largest value of the source's `u64`. */
  const U64_LIMIT: nat := 0x1_0000_0000_0000_0000

  function Pow2(k: nat): (p: nat)
    ensures p >= 1
  {
    if k == 0 then 1 else 2 * Pow2(k - 1)
  }

  ghost predicate IsPow2(n: nat) {
    exists k: nat :: n == Pow2(k)
  }

  /** Bitwise conjunction, binary digit by binary digit. */
  function BitAnd(a: nat, b: nat): nat
    decreases a
  {
    if a == 0 || b == 0 then 0
    else (if a % 2 == 1 && b % 2 == 1 then 1 else 0) + 2 * BitAnd(a / 2, b / 2)
  }

  predicate IsPowerOfTwo(n: nat) {
    n > 0 && BitAnd(n, n - 1) == 0
  }

  lemma {:induction false} BitAndSelf(a: nat)
    ensures BitAnd(a, a) == a
  {
    if a > 0 {
      BitAndSelf(a / 2);
    }
  }

  lemma {:induction false} IsPow2Even(m: nat)
    ensures IsPow2(2 * m) <==> IsPow2(m)
  {
    if k: nat :| 2 * m == Pow2(k) {
      assert m == Pow2(k - 1);
    }
    if k: nat :| m == Pow2(k) {
      assert 2 * m == Pow2(k + 1);
    }
  }

  /** The bit trick decides exactly the powers of two. */
  lemma {:induction false} TrickIsExact(n: nat)
    ensures IsPowerOfTwo(n) <==> IsPow2(n)
  {
    if n <= 1 {
      assert Pow2(0) == 1;
    } else if n % 2 == 0 {
      var m := n / 2;
      assert (n - 1) / 2 == m - 1;
      TrickIsExact(m);
      IsPow2Even(m);
    } else {
      BitAndSelf(n / 2);
      assert (n - 1) / 2 == n / 2;
      forall k: nat
        ensures n != Pow2(k)
      {
        assert Pow2(k) == 1 || Pow2(k) % 2 == 0;
      }
    }
  }

  /** `Pow2` keeps the order, and a strict step at least doubles. */
  lemma {:induction false} Pow2Order(i: nat, j: nat)
    ensures i <= j ==> Pow2(i) <= Pow2(j)
    ensures i < j ==> 2 * Pow2(i) <= Pow2(j)
    decreases j
  {
    if i < j {
      Pow2Order(i, j - 1);
    }
  }

  lemma {:induction false} Pow2Sum(i: nat, j: nat)
    ensures Pow2(i + j) == Pow2(i) * Pow2(j)
  {
    if i > 0 {
      Pow2Sum(i - 1, j);
      assert Pow2(i + j) == 2 * Pow2(i - 1 + j) == (2 * Pow2(i - 1)) * Pow2(j);
    }
  }

  lemma Pow2Divides(i: nat, j: nat)
    requires i <= j
    ensures Pow2(j) % Pow2(i) == 0
  {
    Pow2Sum(i, j - i);
    MultipleOf(Pow2(i), Pow2(j - i));
  }

  // ---- divisibility ----

  lemma MultipleSign(c: nat, k: int)
    ensures k >= 1 ==> c * k >= c
    ensures k <= -1 ==> c * k + c <= 0
    ensures k >= 0 ==> c * k >= 0
  {
  }

  lemma MultipleOf(c: nat, q: int)
    requires c > 0
    ensures (c * q) % c == 0
    ensures (c * q) / c == q
  {
    var d, r := (c * q) / c, (c * q) % c;
    assert r == c * (q - d);
    MultipleSign(c, q - d);
  }

  /** Dropping a multiple of `c` does not change divisibility by `c`. */
  lemma DropMultiple(x: nat, p: nat, c: nat)
    requires c > 0 && p % c == 0 && p <= x
    ensures (x - p) % c == 0 <==> x % c == 0
  {
    var q := p / c;
    assert p == c * q;
    if x % c == 0 {
      assert x - p == c * (x / c - q);
      MultipleOf(c, x / c - q);
    }
    if (x - p) % c == 0 {
      assert x == c * ((x - p) / c + q);
      MultipleOf(c, (x - p) / c + q);
    }
  }

  /** Two multiples of `c` are equal or at least `c` apart. */
  lemma MultipleGap(x: nat, p: nat, c: nat)
    requires c > 0 && x % c == 0 && p % c == 0 && x < p
    ensures x + c <= p
  {
    var i, j := x / c, p / c;
    assert x == c * i && p == c * j;
    assert p - x == c * (j - i);
    MultipleSign(c, j - i);
    MultipleSign(c, i - j);
    assert c * (i - j) == -(c * (j - i));
  }

  // ---- the split size ----

  /** The largest power of two strictly below `n`, by halving upwards. */
  function SplitSize(n: nat): (p: nat)
    requires n >= 2
    ensures p < n <= 2 * p
  {
    if n == 2 then 1 else 2 * SplitSize((n + 1) / 2)
  }

  /** The number of merge rounds `n` leaves need: the binary logarithm of `n`, rounded up. */
  function Height(n: nat): nat {
    if n <= 1 then 0 else 1 + Height((n + 1) / 2)
  }

  /** The smallest power of two that is at least `n`. */
  function CeilPow2(n: nat): (c: nat)
    ensures c >= n && c >= 1
  {
    if n <= 1 then 1 else 2 * SplitSize(n)
  }

  lemma {:induction false} SplitSizeHeight(n: nat)
    requires n >= 2
    ensures Height(n) >= 1 && SplitSize(n) == Pow2(Height(n) - 1)
  {
    if n > 2 {
      SplitSizeHeight((n + 1) / 2);
    }
  }

  /** `CeilPow2` and `Height` are one and the same rounding: 2^(h-1) < n <= 2^h. */
  lemma CeilPow2Height(n: nat)
    requires n >= 1
    ensures CeilPow2(n) == Pow2(Height(n))
    ensures n >= 2 ==> Pow2(Height(n) - 1) < n
    ensures n <= Pow2(Height(n))
  {
    if n >= 2 {
      SplitSizeHeight(n);
    }
  }

  /** No other power of two lies in the window the split size occupies. */
  lemma SplitSizeUnique(n: nat, k: nat)
    requires n >= 2 && Pow2(k) < n <= 2 * Pow2(k)
    ensures Pow2(k) == SplitSize(n)
  {
    SplitSizeHeight(n);
    Pow2Order(k, Height(n) - 1);
    Pow2Order(Height(n) - 1, k);
  }

  lemma CeilPow2OfPow2(n: nat)
    requires IsPow2(n)
    ensures CeilPow2(n) == n
    ensures n >= 2 ==> SplitSize(n) == n / 2
  {
    var k: nat :| n == Pow2(k);
    if k > 0 {
      SplitSizeUnique(n, k - 1);
    }
  }

  /** Powers of two are linearly ordered by divisibility. */
  lemma CeilPow2Divides(m: nat, n: nat)
    requires m >= 1 && n >= 1 && CeilPow2(m) <= CeilPow2(n)
    ensures CeilPow2(n) % CeilPow2(m) == 0
  {
    CeilPow2Height(m);
    CeilPow2Height(n);
    Pow2Order(Height(n), Height(m));
    Pow2Divides(Height(m), Height(n));
  }

  lemma CeilPow2Monotone(m: nat, n: nat)
    requires 1 <= m <= n
    ensures Height(m) <= Height(n)
    ensures CeilPow2(m) <= CeilPow2(n)
  {
    CeilPow2Height(m);
    CeilPow2Height(n);
    if m >= 2 {
      Pow2Order(Height(n), Height(m) - 1);
    }
    Pow2Order(Height(m), Height(n));
  }

  /**
    The doubling loop, in 64 bits. `None` stands for the multiplication that overflows; it happens
    exactly above 2^63. Otherwise the loop returns the split size.
  */
  method LargestPowerOfTwoBelow(n: nat) returns (r: Option<nat>)
    requires n < U64_LIMIT
    ensures r.None? <==> n > U64_LIMIT / 2
    ensures n <= 1 ==> r == Some(0)
    ensures 2 <= n <= U64_LIMIT / 2 ==> r == Some(SplitSize(n))
  {
    if n <= 1 {
      return Some(0);
    }
    var power := 1;
    ghost var k: nat := 0;
    while power * 2 < U64_LIMIT && power * 2 < n
      invariant power == Pow2(k) && power < n
      invariant power < U64_LIMIT
      decreases n - power
    {
      power := power * 2;
      k := k + 1;
    }
    if power * 2 >= U64_LIMIT {
      PowerAt63(k);
      return None;
    }
    SplitSizeUnique(n, k);
    PowerAt63(k + 1);
    return Some(power);
  }

  /** 2^63 is the only power of two in the upper half of `u64`. */
  lemma PowerAt63(k: nat)
    ensures U64_LIMIT / 2 <= Pow2(k) < U64_LIMIT ==> Pow2(k) == U64_LIMIT / 2
    ensures U64_LIMIT / 2 < Pow2(k) ==> U64_LIMIT <= Pow2(k)
  {
    Pow2Sixty3();
    Pow2Order(k, 63);
    Pow2Order(63, k);
  }

  lemma Pow2Sixty3()
    ensures Pow2(63) == U64_LIMIT / 2 && Pow2(64) == U64_LIMIT
  {
    assert Pow2(4) == 16;
    Pow2Sum(4, 4);
    Pow2Sum(8, 8);
    assert Pow2(16) == 0x1_0000;
    Pow2Sum(16, 16);
    assert Pow2(32) == 0x1_0000_0000;
    Pow2Sum(32, 32);
    assert Pow2(64) == 2 * Pow2(63);
  }

  // ---- the split point ----

  /** The first sequence of the right half of `first..last`. */
  function Split(first: nat, last: nat): (m: nat)
    requires first < last
    ensures first < m <= last
    ensures last + 1 - m <= m - first
  {
    first + SplitSize(last + 1 - first)
  }

  /**
    The source's two-branch split computation. The outer `None` stands for an overflow of `u64`, which happens
    exactly for more than 2^63 sequences; the inner one for a range that cannot be split.
  */
  method FindBinarySplitPoint(first: nat, last: nat) returns (r: Option<Option<nat>>)
    requires last < U64_LIMIT
    ensures first >= last ==> r == Some(None)
    ensures first < last && last + 1 - first <= U64_LIMIT / 2 ==> r == Some(Some(Split(first, last)))
    ensures r.None? <==> last + 1 - first > U64_LIMIT / 2
  {
    if first >= last {
      return Some(None);
    }
    var total := last - first + 1;
    if total >= U64_LIMIT {
      return None;
    }
    TrickIsExact(total);
    if IsPowerOfTwo(total) {
      CeilPow2OfPow2(total);
      ghost var k :| Pow2(k) == total;
      PowerAt63(k);
      return Some(Some(first + total / 2));
    }
    var size := LargestPowerOfTwoBelow(total);
    if size.None? {
      return None;
    }
    if size.value > 0 {
      return Some(Some(first + size.value));
    }
    return Some(None);
  }
}
