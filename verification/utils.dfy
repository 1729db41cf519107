/**
 * The pure helpers of app/lib/utils.ts: wallet-address shortening and the sale
 * discount percentage.
 */
module Utils {
  import opened JsString

  function Min(a: int, b: int): int { if a <= b then a else b }

  /** `formatAddress`: `${address.slice(0, 6)}...${address.slice(-4)}`. The head is the
      first six characters (or all of a shorter address), the tail the last four. */
  function FormatAddress(address: string): (r: string)
    ensures r == address[..Min(6, |address|)] + "..." + address[|address| - Min(4, |address|)..]
    ensures |r| == Min(6, |address|) + 3 + Min(4, |address|)
  {
    Slice(address, 0, 6) + "..." + SliceFrom(address, -4)
  }

  /** A full-length address keeps its first six and last four characters around "...". */
  lemma FormatLongAddress(address: string)
    requires |address| >= 10
    ensures var r := FormatAddress(address);
      && |r| == 13
      && r[..6] == address[..6]
      && r[6..9] == "..."
      && r[9..] == address[|address| - 4..]
  {
  }

  /** The exact discount ratio `(originalPrice - salePrice) / originalPrice * 100`. */
  function ExactDiscount(originalPrice: int, salePrice: int): real
    requires originalPrice != 0
  {
    ((originalPrice - salePrice) as real) * 100.0 / (originalPrice as real)
  }

  /** `floor(n / d)` for any non-zero divisor. */
  function FloorDiv(n: int, d: int): (q: int)
    requires d != 0
    ensures d > 0 ==> d * q <= n < d * q + d
    ensures d < 0 ==> d * q >= n > d * q + d
  {
    if d > 0 then n / d else (-n) / (-d)
  }

  /** `calculateDiscount`: `Math.round` of the exact ratio, i.e. the integer nearest to
      it with halves rounded up. The only caller passes a truthy (non-zero) original price. */
  function CalculateDiscount(originalPrice: int, salePrice: int): (r: int)
    requires originalPrice != 0
    ensures (r as real) - 0.5 <= ExactDiscount(originalPrice, salePrice) < (r as real) + 0.5
  {
    var o := originalPrice;
    var n := 200 * (o - salePrice) + o;
    var q := FloorDiv(n, 2 * o);
    RoundingLemma(o, salePrice, q);
    q
  }

  /** `floor((2x + 1) / 2)` is `x` rounded half up, for `x` the exact ratio. */
  lemma RoundingLemma(o: int, s: int, q: int)
    requires o != 0
    requires 2 * o > 0 ==> 2 * o * q <= 200 * (o - s) + o < 2 * o * q + 2 * o
    requires 2 * o < 0 ==> 2 * o * q >= 200 * (o - s) + o > 2 * o * q + 2 * o
    ensures (q as real) - 0.5 <= ExactDiscount(o, s) < (q as real) + 0.5
  {
    var n := ((o - s) as real) * 100.0;
    var d := o as real;
    var qd := (q as real) * d;
    assert ((o * q) as real) == qd;
    assert ((2 * o * q - o) as real) == 2.0 * qd - d;
    assert ((2 * o * q + o) as real) == 2.0 * qd + d;
    assert ((200 * (o - s)) as real) == 2.0 * n;
    assert ((q as real) - 0.5) * d == qd - 0.5 * d;
    assert ((q as real) + 0.5) * d == qd + 0.5 * d;
    if o > 0 {
      assert 2 * o * q - o <= 200 * (o - s) < 2 * o * q + o;
      DivideByPositive(n, d, (q as real) - 0.5, (q as real) + 0.5);
    } else {
      assert 2 * o * q - o >= 200 * (o - s) > 2 * o * q + o;
      DivideByNegative(n, d, (q as real) - 0.5, (q as real) + 0.5);
    }
  }

  lemma DivideByPositive(n: real, d: real, lo: real, hi: real)
    requires d > 0.0 && lo * d <= n < hi * d
    ensures lo <= n / d < hi
  {
    var x := n / d;
    assert x * d == n;
    assert (x - lo) * d >= 0.0 && (hi - x) * d > 0.0;
  }

  lemma DivideByNegative(n: real, d: real, lo: real, hi: real)
    requires d < 0.0 && lo * d >= n > hi * d
    ensures lo <= n / d < hi
  {
    var x := n / d;
    assert x * d == n;
    assert (x - lo) * d <= 0.0 && (hi - x) * d < 0.0;
  }

  /** The floor quotient is the only integer with the bounds `FloorDiv` states. */
  lemma FloorDivUnique(n: int, d: int, q: int)
    requires d > 0 ==> d * q <= n < d * q + d
    requires d < 0 ==> d * q >= n > d * q + d
    requires d != 0
    ensures FloorDiv(n, d) == q
  {
    var r := FloorDiv(n, d);
    if d > 0 {
      assert d * (r - q) < d * 1 && d * (q - r) < d * 1;
      CancelPositive(d, r - q, 1);
      CancelPositive(d, q - r, 1);
    } else {
      assert (-d) * (r - q) < (-d) * 1 && (-d) * (q - r) < (-d) * 1;
      CancelPositive(-d, r - q, 1);
      CancelPositive(-d, q - r, 1);
    }
  }

  lemma CancelPositive(d: int, a: int, b: int)
    requires d > 0 && d * a < d * b
    ensures a < b
  {
    assert d * (b - a) > 0;
  }

  /** No discount when the sale price equals the original. */
  lemma NoDiscountAtFullPrice(o: int)
    requires o != 0
    ensures CalculateDiscount(o, o) == 0
  {
    FloorDivUnique(o, 2 * o, 0);
  }

  /** A free item is a 100% discount. */
  lemma FullDiscountWhenFree(o: int)
    requires o != 0
    ensures CalculateDiscount(o, 0) == 100
  {
    assert 200 * (o - 0) + o == 2 * o * 100 + o;
    FloorDivUnique(200 * (o - 0) + o, 2 * o, 100);
  }

  /** A sale price between zero and the original gives a percentage in [0, 100]. */
  lemma DiscountInRange(o: int, s: int)
    requires o > 0 && 0 <= s <= o
    ensures 0 <= CalculateDiscount(o, s) <= 100
  {
    var n := 200 * (o - s) + o;
    var q := FloorDiv(n, 2 * o);
    assert CalculateDiscount(o, s) == q;
    QuotientBounds(2 * o, q, n);
  }

  /** A floor quotient of a numerator in [0, 101 d) lies in [0, 100]. */
  lemma QuotientBounds(d: int, q: int, n: int)
    requires d > 0 && d * q <= n < d * q + d
    requires 0 <= n < 101 * d
    ensures 0 <= q <= 100
  {
    assert d * (q + 1) > 0;
    assert d * q < d * 101;
  }

  /** The sample products are priced 100 against an original 200: 50% off. */
  lemma SampleDiscount()
    ensures CalculateDiscount(200, 100) == 50
  {
  }
}
