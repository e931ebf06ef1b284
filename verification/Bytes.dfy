/** The scaling loop of FormatBytes, in uint64 arithmetic. */
module Bytes {
  import opened Common

  const UNIT: U64 := 1000

  /** The suffixes KB, MB, GB, TB, PB, EB. */
  const SUFFIXES: nat := 6

  function Pow1000(n: nat): nat {
    if n == 0 then 1 else 1000 * Pow1000(n - 1)
  }

  /** A whole number of bytes, or b / div with the suffix of that index. */
  datatype Scaled = Whole(bytes: U64) | Prefixed(bytes: U64, div: U64, suffix: nat)

  /** div is the power of 1000 that b reaches without reaching the next one. */
  ghost predicate Scale(b: int, div: int, suffix: nat) {
    div == Pow1000(suffix + 1) && div <= b < 1000 * div
  }

  lemma {:induction false} PowGrows(m: nat, n: nat)
    requires m < n
    ensures 0 < 1000 * Pow1000(m) <= Pow1000(n)
  {
    if m < n - 1 {
      PowGrows(m, n - 1);
    } else if m > 0 {
      PowGrows(m - 1, m);
    }
  }

  /** The uint64 range ends before 1000^7, so six suffixes are enough. */
  lemma SuffixInRange(b: U64, div: int, suffix: nat)
    requires div == Pow1000(suffix + 1) && div <= b
    ensures suffix < SUFFIXES
  {
    assert Pow1000(7) == 1000 * (1000 * (1000 * (1000 * (1000 * (1000 * 1000))))) by {
      assert Pow1000(1) == 1000 && Pow1000(2) == 1000 * Pow1000(1) && Pow1000(3) == 1000 * Pow1000(2);
      assert Pow1000(4) == 1000 * Pow1000(3) && Pow1000(5) == 1000 * Pow1000(4) && Pow1000(6) == 1000 * Pow1000(5);
    }
    if suffix >= SUFFIXES {
      if suffix > SUFFIXES {
        PowGrows(7, suffix + 1);
      }
      assert false;
    }
  }

  /** n is b / div, rounded down: one more division scales once more. */
  lemma DivideAgain(b: nat, div: nat, n: nat)
    requires div * n <= b < div * n + div && n >= 1000
    ensures 1000 * div * (n / 1000) <= b < 1000 * div * (n / 1000) + 1000 * div
  {
    var q := n / 1000;
    assert 1000 * q <= n && n + 1 <= 1000 * q + 1000;
    MulLe(div, 1000 * q, n);
    MulLe(div, n + 1, 1000 * q + 1000);
  }

  lemma MulLe(d: nat, x: int, y: int)
    requires x <= y
    ensures d * x <= d * y
  {
  }

  lemma Bounds(b: nat, div: nat, n: nat)
    requires div * n <= b < div * n + div && 1 <= n
    ensures div <= b
    ensures n < 1000 ==> b < 1000 * div
    ensures n >= 1000 ==> 1000 * div <= b
  {
    MulLe(div, 1, n);
    if n < 1000 {
      MulLe(div, n + 1, 1000);
    } else {
      MulLe(div, 1000, n);
    }
  }

  /** At most one scale fits a number. */
  lemma ScaleUnique(b: nat, div: nat, suffix: nat, div': nat, suffix': nat)
    requires Scale(b, div, suffix) && Scale(b, div', suffix')
    ensures div == div' && suffix == suffix'
  {
    ScaleMonotone(b, div, suffix, b, div', suffix');
    ScaleMonotone(b, div', suffix', b, div, suffix);
  }

  /** Larger numbers never get a smaller suffix. */
  lemma ScaleMonotone(b: nat, div: nat, suffix: nat, b': nat, div': nat, suffix': nat)
    requires b <= b' && Scale(b, div, suffix) && Scale(b', div', suffix')
    ensures suffix <= suffix'
  {
    if suffix' < suffix {
      PowGrows(suffix' + 1, suffix + 1);
      assert false;
    }
  }

  /**
   * For every uint64 the loop ends with div at the power of 1000 below b, no product overflows
   * and the suffix index is in range.
   */
  method FormatBytes(b: U64) returns (r: Scaled)
    ensures r.bytes == b
    ensures r.Whole? <==> b < 1000
    ensures r.Prefixed? ==> Scale(b, r.div, r.suffix) && r.suffix < SUFFIXES
    ensures r.Prefixed? ==> forall div: nat, suffix: nat :: Scale(b, div, suffix) ==> div == r.div && suffix == r.suffix
  {
    if b < UNIT {
      return Whole(b);
    }
    var div: U64 := UNIT;
    var exp: nat := 0;
    var n: U64 := b / UNIT;
    assert Pow1000(1) == 1000;
    while n >= UNIT
      invariant 1 <= n && div == Pow1000(exp + 1)
      invariant div * n <= b < div * n + div
      decreases n
    {
      Bounds(b, div, n);
      DivideAgain(b, div, n);
      // The product is at most b, so the uint64 multiplication does not wrap.
      div := WrapU64(div * UNIT);
      exp := exp + 1;
      n := n / UNIT;
    }
    Bounds(b, div, n);
    SuffixInRange(b, div, exp);
    r := Prefixed(b, div, exp);
    forall div': nat, exp': nat | Scale(b, div', exp')
      ensures div' == div && exp' == exp
    {
      ScaleUnique(b, div, exp, div', exp');
    }
  }
}
