/** Shared vocabulary: options, 64-bit integers and two-component totals. */
module Common {
  datatype Option<+T> = None | Some(value: T)

  datatype Result<+T, +E> = Ok(value: T) | Err(error: E)

  /** An error value as the callers see it; only its presence and identity matter here. */
  type Error = string

  const TWO_63: int := 0x8000_0000_0000_0000
  const TWO_64: int := 0x1_0000_0000_0000_0000

  type I64 = x: int | -0x8000_0000_0000_0000 <= x < 0x8000_0000_0000_0000

  type U64 = x: int | 0 <= x < 0x1_0000_0000_0000_0000

  /** The sum or conversion result that Go keeps in an int64: two's-complement wrap-around. */
  function WrapI64(x: int): I64
    decreases if x < 0 then -2 * x - 1 else 2 * x + 1
  {
    if x >= TWO_63 then WrapI64(x - TWO_64)
    else if x < -TWO_63 then WrapI64(x + TWO_64)
    else x
  }

  /** The sum that Go keeps in a uint64. */
  function WrapU64(x: int): U64
    decreases if x < 0 then TWO_64 - x else x
  {
    if x >= TWO_64 then WrapU64(x - TWO_64)
    else if x < 0 then WrapU64(x + TWO_64)
    else x
  }

  lemma WrapI64Shift(x: int)
    ensures WrapI64(x + TWO_64) == WrapI64(x)
  {
  }

  /** Adding into an already wrapped accumulator loses nothing modulo 2^64. */
  lemma {:induction false} WrapI64Add(a: int, b: int)
    ensures WrapI64(WrapI64(a) + b) == WrapI64(a + b)
    decreases if a < 0 then -2 * a - 1 else 2 * a + 1
  {
    if a >= TWO_63 {
      WrapI64Add(a - TWO_64, b);
      WrapI64Shift(a - TWO_64 + b);
    } else if a < -TWO_63 {
      WrapI64Add(a + TWO_64, b);
      WrapI64Shift(a + b);
    }
  }

  lemma TakeBack<T>(s: seq<T>, i: nat)
    requires i < |s|
    ensures s[..i + 1][..i] == s[..i] && s[..i + 1][i] == s[i]
  {
  }

  lemma TakeTake<T>(s: seq<T>, n: nat, m: nat)
    requires m <= n <= |s|
    ensures s[..n][..m] == s[..m]
  {
  }

  lemma EmptySum<T>(s: seq<T>)
    ensures [] + s == s && s + [] == s
  {
  }

  lemma InTake<T>(s: seq<T>, n: nat, x: T)
    requires n <= |s| && x in s[..n]
    ensures x in s
  {
  }

  lemma InConcat<T>(a: seq<T>, b: seq<T>, x: T)
    ensures x in a + b <==> x in a || x in b
  {
  }

  lemma TakeStep<T>(s: seq<T>, i: nat)
    requires i < |s|
    ensures s[..i + 1] == s[..i] + [s[i]]
  {
  }

  lemma SnocTake<T>(s: seq<T>, x: T)
    ensures (s + [x])[..|s|] == s
  {
  }

  lemma DropStep<T>(s: seq<T>, i: nat)
    requires i < |s|
    ensures s[i..][0] == s[i] && s[i..][1..] == s[i + 1..] && s[i..][..1] == [s[i]]
    ensures i + 1 < |s| ==> s[i..][2..] == s[i + 2..]
  {
  }

  lemma Assoc<T>(a: seq<T>, b: seq<T>, c: seq<T>)
    ensures a + (b + c) == (a + b) + c
  {
  }

  lemma TakeAll<T>(s: seq<T>, i: nat)
    requires i == |s|
    ensures s[..i] == s
  {
  }
}
