/** The colour a sand cell is painted with, which depends on its row only. */
module Colour {
  import opened Grid

  /** The `rgb(r,g,b)` fill style, as its three channels. */
  datatype Rgb = Rgb(red: int, green: int, blue: int)

  /** The fill colour of a sand cell on row `y` of a canvas `canvasHeight`
      pixels high: red at full intensity, no blue, and a green channel that is
      the floor of 255 times the fraction of the height still below the row.
      The arithmetic is done on exact real numbers; the program's
      floating-point rounding is not modelled. */
  function ColorBasedOnHeight(y: int, canvasHeight: nat): (c: Rgb)
    requires canvasHeight > 0
    ensures c.red == 255 && c.blue == 0
  {
    var max := (canvasHeight as real) / (BLOCK_SIZE as real);
    var percent := (y as real) / max;
    Rgb(255, (255.0 - 255.0 * percent).Floor, 0)
  }

  lemma FloorOfQuotient(a: int, b: int)
    requires b > 0
    ensures ((a as real) / (b as real)).Floor == a / b
  {
    var q, r := a / b, a % b;
    assert a == q * b + r && 0 <= r < b;
    var x, f := (a as real) / (b as real), (r as real) / (b as real);
    assert (a as real) == (q as real) * (b as real) + (r as real);
    assert x == q as real + f;
    assert 0.0 <= f < 1.0 by {
      assert f * (b as real) == r as real;
    }
    assert q as real <= x < q as real + 1.0;
  }

  /** On a canvas whose height is a whole number `rows` of cells, the green
      channel is the integer quotient 255 * (rows - y) / rows, that is
      255 - ceil(255 * y / rows). */
  lemma GreenInIntegers(y: int, canvasHeight: nat)
    requires canvasHeight > 0 && canvasHeight % BLOCK_SIZE == 0
    ensures ColorBasedOnHeight(y, canvasHeight).green
            == 255 * (Rows(canvasHeight) - y) / Rows(canvasHeight)
  {
    var rows := Rows(canvasHeight);
    assert (canvasHeight as real) / (BLOCK_SIZE as real) == rows as real;
    var r, yr := rows as real, y as real;
    assert ((255 * (rows - y)) as real) == 255.0 * r - 255.0 * yr;
    assert (255.0 * r - 255.0 * yr) / r == (255.0 * r) / r - (255.0 * yr) / r;
    assert (255.0 * r) / r == 255.0;
    assert (255.0 * yr) / r == 255.0 * (yr / r);
    FloorOfQuotient(255 * (rows - y), rows);
  }

  /** Row 0 is drawn with full green; every row of the grid gets a green
      channel in [0, 255]. */
  lemma GreenRange(y: int, canvasHeight: nat)
    requires canvasHeight > 0 && canvasHeight % BLOCK_SIZE == 0
    requires 0 <= y < Rows(canvasHeight)
    ensures 0 <= ColorBasedOnHeight(y, canvasHeight).green <= 255
    ensures y == 0 ==> ColorBasedOnHeight(y, canvasHeight).green == 255
  {
    GreenInIntegers(y, canvasHeight);
    var rows := Rows(canvasHeight);
    assert 0 <= 255 * (rows - y) <= 255 * rows;
    DivMonotone(255 * (rows - y), 255 * rows, rows);
  }

  lemma DivMonotone(a: int, b: int, d: int)
    requires d > 0 && a <= b
    ensures a / d <= b / d
  {
    var qa, qb, ra, rb := a / d, b / d, a % d, b % d;
    assert a == d * qa + ra && 0 <= ra < d;
    assert b == d * qb + rb && 0 <= rb < d;
    if qa > qb {
      MulMonotone(d, qb + 1, qa);
    }
  }

  lemma MulMonotone(d: int, p: int, q: int)
    requires d >= 0 && p <= q
    ensures d * p <= d * q
  {
    assert d * q - d * p == d * (q - p);
  }

  /** The green channel never increases as the row index grows. */
  lemma GreenNonIncreasing(y1: int, y2: int, canvasHeight: nat)
    requires canvasHeight > 0 && canvasHeight % BLOCK_SIZE == 0
    requires y1 <= y2
    ensures ColorBasedOnHeight(y2, canvasHeight).green <= ColorBasedOnHeight(y1, canvasHeight).green
  {
    GreenInIntegers(y1, canvasHeight);
    GreenInIntegers(y2, canvasHeight);
    var rows := Rows(canvasHeight);
    DivMonotone(255 * (rows - y2), 255 * (rows - y1), rows);
  }

  /** The bottom row is drawn with green 255 / rows, not 0. */
  lemma GreenAtBottom(canvasHeight: nat)
    requires canvasHeight > 0 && canvasHeight % BLOCK_SIZE == 0
    ensures ColorBasedOnHeight(Rows(canvasHeight) - 1, canvasHeight).green
            == 255 / Rows(canvasHeight)
    ensures Rows(canvasHeight) <= 255 ==>
              ColorBasedOnHeight(Rows(canvasHeight) - 1, canvasHeight).green > 0
  {
    GreenInIntegers(Rows(canvasHeight) - 1, canvasHeight);
  }
}
