/** Machine words, and what several modules share. */
module Base {

  datatype Option<+T> = None | Some(value: T)

  const I31 := 0x8000_0000
  const U32 := 0x1_0000_0000
  const I63 := 0x8000_0000_0000_0000
  const U64 := 0x1_0000_0000_0000_0000

  /** Bytes of a page. */
  const PAGE := 4096

  function Min(a: nat, b: nat): nat { if a < b then a else b }

  ghost predicate NoDup<T>(xs: seq<T>) {
    forall i, j :: 0 <= i < j < |xs| ==> xs[i] != xs[j]
  }

  /** Two's complement: the value of `x` in a signed type with `h` non-negative values. */
  function Wrap(x: int, h: int): (y: int)
    requires h > 0
    ensures -h <= y < h
  {
    (x + h) % (2 * h) - h
  }

  /** The value a wider number keeps when it is stored in an int. */
  function ToInt(x: int): int { Wrap(x, I31) }

  lemma Remainder(x: int, m: int, q: int, r: int)
    requires m > 0 && x == m * q + r && 0 <= r < m
    ensures x % m == r
  {
    var d := x / m - q;
    assert m * d == r - x % m;
    assert (d > 0 ==> m * d >= m) && (d < 0 ==> m * d <= -m);
  }

  lemma Congruent(x: int, k: int, m: int)
    requires m > 0
    ensures (x + m * k) % m == x % m
  {
    var q := (x + m * k) / m;
    assert x + m * k == m * q + (x + m * k) % m;
    assert x == m * (q - k) + (x + m * k) % m;
    Remainder(x, m, q - k, (x + m * k) % m);
  }

  lemma WrapSmall(x: int, h: int)
    requires h > 0 && -h <= x < h
    ensures Wrap(x, h) == x
  {
    Remainder(x + h, 2 * h, 0, x + h);
  }

  /** A count survives the cut to an int exactly below 2^31. */
  lemma ToIntExact(x: nat)
    ensures ToInt(x) == x <==> x < I31
  {
  }

  lemma {:induction false} DistinctBelow(xs: seq<nat>, n: nat)
    requires NoDup(xs) && forall i :: 0 <= i < |xs| ==> xs[i] < n
    ensures |xs| <= n
  {
    assert xs != [] ==> xs[0] < n;
    if n > 0 {
      if i :| 0 <= i < |xs| && xs[i] == n - 1 {
        DistinctBelow(xs[..i] + xs[i + 1..], n - 1);
      } else {
        DistinctBelow(xs, n - 1);
      }
    }
  }
}
