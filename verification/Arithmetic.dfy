// Division facts used where the program numbers tiles and counts day and night cycles.

module Arithmetic {

  lemma ProductOrdered(a: int, b: int, width: nat)
    requires a < b
    ensures (a + 1) * width <= b * width
  {
  }

  lemma QuotientUnique(n: nat, width: nat, y: nat, x: nat)
    requires x < width && n == y * width + x
    ensures n / width == y && n % width == x
  {
    var q, r := n / width, n % width;
    assert n == q * width + r;
    if q < y { ProductOrdered(q, y, width); }
    if y < q { ProductOrdered(y, q, width); }
  }

  lemma QuotientWithin(n: nat, width: nat, height: nat)
    requires n < width * height
    ensures width > 0 && n / width < height && n == n / width * width + n % width
  {
    if width > 0 {
      var q, r := n / width, n % width;
      assert n == q * width + r;
      if height < q { ProductOrdered(height, q, width); }
    }
  }
}
