/** The quantiser the timeline imports from its `utils` module.
    That module is not part of this model: its behaviour is an explicit
    assumption here, round to the nearest multiple of ten with ties going up,
    which agrees with every value the widget's tests observe
    (234 -> 230, 100 -> 100, 105 -> 110, 100 -> 100). */
module Utils {

  /** `tenMultipliers(n)`: the multiple of ten nearest to `n`, ties up.
      Dafny's `/` with a positive divisor is floor division. */
  function TenMultiple(n: int): (r: int)
    ensures r % 10 == 0
    ensures n - 5 < r <= n + 5
  {
    var q := (n + 5) / 10;
    assert 10 * q <= n + 5 < 10 * q + 10;
    q * 10
  }

  /** A multiple of ten is its own nearest multiple of ten. */
  lemma TenMultipleFixes(n: int)
    requires n % 10 == 0
    ensures TenMultiple(n) == n
  {
    var q := n / 10;
    assert n == 10 * q;
    assert (n + 5) / 10 == q;
  }

  /** Rounding to tens never reverses the order of two values. */
  lemma TenMultipleMonotone(a: int, b: int)
    requires a <= b
    ensures TenMultiple(a) <= TenMultiple(b)
  {
  }

  /** A value that lies between two multiples of ten rounds to a value
      between them too. */
  lemma TenMultipleBetween(lo: int, n: int, hi: int)
    requires lo % 10 == 0 && hi % 10 == 0
    requires lo <= n <= hi
    ensures lo <= TenMultiple(n) <= hi
  {
    TenMultipleMonotone(lo, n);
    TenMultipleMonotone(n, hi);
    TenMultipleFixes(lo);
    TenMultipleFixes(hi);
  }
}
