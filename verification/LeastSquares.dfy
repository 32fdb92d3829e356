/** The least-squares line that the tracker's fit is compared with: no other line has a
    smaller sum of squared distances. */
module LeastSquares {
  import opened SyncLineTracker

  /** The sum of the squares of the distances of the points (i, ys[i]) from a line. */
  function SquaredError(ys: seq<int>, slope: real, intercept: real): real {
    if ys == [] then 0.0 else
    var n := |ys| - 1;
    var miss := ys[n] as real - LineAt(slope, intercept, n as real);
    SquaredError(ys[..n], slope, intercept) + miss * miss
  }

  function SumYY(ys: seq<int>): real {
    if ys == [] then 0.0 else
    SumYY(ys[..|ys| - 1]) + ys[|ys| - 1] as real * ys[|ys| - 1] as real
  }

  /** The error of the line `b x + a` in terms of the sums. */
  function ErrorOf(n: real, s1: real, s2: real, y: real, xy: real, yy: real, b: real, a: real): real {
    yy - 2.0 * a * y - 2.0 * b * xy + n * a * a + 2.0 * a * b * s1 + b * b * s2
  }

  /** One more point. */
  lemma ErrorGrows(n: real, s1: real, s2: real, y: real, xy: real, yy: real, b: real, a: real,
                   m: real, p: real, miss: real)
    requires miss == p - (b * m + a)
    ensures ErrorOf(n, s1, s2, y, xy, yy, b, a) + miss * miss
         == ErrorOf(n + 1.0, s1 + m, s2 + m * m, y + p, xy + m * p, yy + p * p, b, a)
  {
    var q := b * m;
    assert miss * miss == p * p - 2.0 * p * q - 2.0 * p * a + q * q + 2.0 * a * q + a * a;
    assert 2.0 * a * (y + p) == 2.0 * a * y + 2.0 * p * a;
    assert 2.0 * b * (xy + m * p) == 2.0 * b * xy + 2.0 * p * q;
    assert (n + 1.0) * a * a == n * a * a + a * a;
    assert 2.0 * a * b * (s1 + m) == 2.0 * a * b * s1 + 2.0 * a * q;
    assert b * b * (s2 + m * m) == b * b * s2 + q * q;
  }

  lemma TotalGrows(ys: seq<int>, before: seq<int>, p: real)
    requires ys != [] && before == ys[..|ys| - 1] && p == ys[|ys| - 1] as real
    ensures TotalY(ys) == TotalY(before) + p
  {
  }

  lemma SquaresGrow(ys: seq<int>, before: seq<int>, p: real)
    requires ys != [] && before == ys[..|ys| - 1] && p == ys[|ys| - 1] as real
    ensures SumYY(ys) == SumYY(before) + p * p
  {
  }

  lemma ProductsGrow(ys: seq<int>, before: seq<int>, m: real, p: real, q: real)
    requires ys != [] && before == ys[..|ys| - 1] && m == (|ys| - 1) as real && p == ys[|ys| - 1] as real && q == m * p
    ensures SumXY(ys) == SumXY(before) + q
  {
    if |ys| == 1 {
      assert q == 0.0;
    }
  }

  lemma ErrorLast(ys: seq<int>, before: seq<int>, b: real, a: real, m: real, p: real, miss: real)
    requires ys != [] && before == ys[..|ys| - 1] && m == (|ys| - 1) as real && p == ys[|ys| - 1] as real
    requires miss == p - LineAt(b, a, m)
    ensures SquaredError(ys, b, a) == SquaredError(before, b, a) + miss * miss
  {
    var k := |ys| - 1;
    assert ys[k] as real - LineAt(b, a, k as real) == miss;
  }

  lemma {:induction false} ErrorIs(ys: seq<int>, n: real, s1: real, s2: real, b: real, a: real)
    requires n == |ys| as real && s1 == SumX(n) && s2 == SumXX(n)
    ensures SquaredError(ys, b, a) == ErrorOf(n, s1, s2, TotalY(ys), SumXY(ys), SumYY(ys), b, a)
  {
    if ys == [] {
      NoError(s1, s2, b, a);
    } else {
      var k := |ys| - 1;
      var before, m, p := ys[..k], n - 1.0, ys[k] as real;
      var miss := p - (b * m + a);
      SumXGrows(m);
      SumXXGrows(m);
      ErrorIs(before, m, s1 - m, s2 - m * m, b, a);
      TotalGrows(ys, before, p);
      SquaresGrow(ys, before, p);
      ProductsGrow(ys, before, m, p, m * p);
      ErrorLast(ys, before, b, a, m, p, miss);
      ErrorGrows(m, s1 - m, s2 - m * m, TotalY(before), SumXY(before), SumYY(before), b, a, m, p, miss);
    }
  }

  lemma NoError(s1: real, s2: real, b: real, a: real)
    requires s1 == SumX(0.0) && s2 == SumXX(0.0)
    ensures ErrorOf(0.0, s1, s2, 0.0, 0.0, 0.0, b, a) == 0.0
  {
    assert s1 == 0.0 && s2 == 0.0;
  }

  // ----- the normal equations

  lemma SecondNormal(n: real, s1: real, s2: real, y: real, xy: real, b: real, a: real)
    requires n > 0.0 && n * a == y - b * s1 && b * (n * s2 - s1 * s1) == n * xy - s1 * y
    ensures s1 * a + s2 * b == xy
  {
    var p, q := s1 * a, s2 * b;
    assert n * p == s1 * (n * a);
    assert s1 * (y - b * s1) == s1 * y - b * (s1 * s1);
    assert n * q == b * (n * s2);
    assert b * (n * s2 - s1 * s1) == b * (n * s2) - b * (s1 * s1);
    assert n * (p + q) == n * p + n * q;
    Cancelled(n, p + q, xy);
  }

  lemma Cancelled(n: real, p: real, q: real)
    requires n > 0.0 && n * p == n * q
    ensures p == q
  {
    Quotient(n * p, n, p);
    Quotient(n * q, n, q);
  }

  lemma Solved(n: real, s1: real, s2: real, y: real, xy: real, b: real, a: real)
    requires n > 0.0 && LineDenom(n, s1, s2) != 0.0
    requires b == LineSlope(n, s1, y, s2, xy) && a == LineIntercept(n, s1, y, b)
    ensures n * a == y - b * s1 && s1 * a + s2 * b == xy
  {
    TimesQuotient(n * xy - s1 * y, LineDenom(n, s1, s2));
    TimesQuotient(y - b * s1, n);
    SecondNormal(n, s1, s2, y, xy, b, a);
  }

  // ----- no line is better

  /** By how much a line that is off by `db` and `da` is worse. */
  lemma ErrorGap(n: real, s1: real, s2: real, y: real, xy: real, yy: real, b: real, a: real, db: real, da: real)
    requires n * a == y - b * s1 && s1 * a + s2 * b == xy
    ensures ErrorOf(n, s1, s2, y, xy, yy, b + db, a + da) - ErrorOf(n, s1, s2, y, xy, yy, b, a)
         == n * da * da + 2.0 * da * db * s1 + db * db * s2
  {
    assert 2.0 * (a + da) * y == 2.0 * a * y + 2.0 * da * y;
    assert 2.0 * (b + db) * xy == 2.0 * b * xy + 2.0 * db * xy;
    assert n * (a + da) * (a + da) == n * a * a + 2.0 * da * (n * a) + n * da * da;
    assert 2.0 * (a + da) * (b + db) * s1
        == 2.0 * a * b * s1 + 2.0 * da * (b * s1) + 2.0 * db * (s1 * a) + 2.0 * da * db * s1;
    assert (b + db) * (b + db) * s2 == b * b * s2 + 2.0 * db * (s2 * b) + db * db * s2;
    assert 2.0 * da * y == 2.0 * da * (n * a) + 2.0 * da * (b * s1);
    assert 2.0 * db * xy == 2.0 * db * (s1 * a) + 2.0 * db * (s2 * b);
  }

  lemma Square(x: real, y: real, v: real)
    requires x == y && v == x * y
    ensures v >= 0.0 && (x != 0.0 ==> v > 0.0)
  {
    if x >= 0.0 {
      Product(x, y);
    } else {
      Product(0.0 - x, 0.0 - y);
      assert (0.0 - x) * (0.0 - y) == x * y;
    }
  }

  lemma Nonzero(n: real, x: real)
    requires n > 0.0
    ensures n * x == 0.0 ==> x == 0.0
  {
  }

  /** `n` times the gap is a sum of two squares. */
  lemma GapTimes(n: real, s1: real, s2: real, db: real, da: real, gap: real, u: real, d: real)
    requires gap == n * da * da + 2.0 * da * db * s1 + db * db * s2
    requires u == n * da + db * s1 && d == n * s2 - s1 * s1
    ensures n * gap == u * u + db * db * d
  {
    var p, q := n * da, db * s1;
    assert u * u == p * p + 2.0 * (p * q) + q * q;
    assert db * db * d == db * db * (n * s2) - db * db * (s1 * s1);
    assert q * q == db * db * (s1 * s1);
    assert n * (n * da * da) == p * p;
    assert n * (2.0 * da * db * s1) == 2.0 * (p * q);
    assert n * (db * db * s2) == db * db * (n * s2);
    assert n * gap == n * (n * da * da) + n * (2.0 * da * db * s1) + n * (db * db * s2);
  }

  lemma GapPositive(n: real, s1: real, s2: real, db: real, da: real, gap: real)
    requires n > 0.0 && n * s2 - s1 * s1 > 0.0 && gap == n * da * da + 2.0 * da * db * s1 + db * db * s2
    ensures gap >= 0.0 && (gap == 0.0 ==> db == 0.0 && da == 0.0)
  {
    var u, d := n * da + db * s1, n * s2 - s1 * s1;
    GapTimes(n, s1, s2, db, da, gap, u, d);
    SumOfSquares(n, gap, u, u, db, db, d);
    if gap == 0.0 {
      assert db * s1 == 0.0;
      Nonzero(n, da);
    }
  }

  lemma SumOfSquares(n: real, gap: real, u: real, u': real, x: real, x': real, d: real)
    requires n > 0.0 && d > 0.0 && u == u' && x == x' && n * gap == u * u' + x * x' * d
    ensures gap >= 0.0 && (gap == 0.0 ==> u == 0.0 && x == 0.0)
  {
    var uu, xx := u * u', x * x';
    var r := xx * d;
    Square(u, u', uu);
    Square(x, x', xx);
    Scaled(xx, d, r);
    SignOf(n, gap, uu + r);
    BothZero(u, uu, x, xx, r);
  }

  lemma Scaled(a: real, d: real, r: real)
    requires a >= 0.0 && d > 0.0 && r == a * d
    ensures r >= 0.0 && (a > 0.0 ==> r > 0.0)
  {
    Product(a, d);
  }

  lemma BothZero(u: real, uu: real, x: real, xx: real, r: real)
    requires uu >= 0.0 && (u != 0.0 ==> uu > 0.0) && (x != 0.0 ==> xx > 0.0) && (xx > 0.0 ==> r > 0.0) && r >= 0.0
    ensures uu + r >= 0.0 && (uu + r == 0.0 ==> u == 0.0 && x == 0.0)
  {
  }

  lemma NegatedProduct(n: real, x: real)
    ensures n * (0.0 - x) == 0.0 - n * x
  {
  }

  lemma SignOf(n: real, gap: real, v: real)
    requires n > 0.0 && v >= 0.0 && n * gap == v
    ensures gap >= 0.0 && (gap == 0.0 ==> v == 0.0)
  {
    NegatedProduct(n, gap);
    Product(n, 0.0 - gap);
  }

  lemma NoneBetter(n: real, s1: real, s2: real, y: real, xy: real, yy: real,
                   b: real, a: real, db: real, da: real)
    requires n > 0.0 && LineDenom(n, s1, s2) > 0.0 && n * a == y - b * s1 && s1 * a + s2 * b == xy
    ensures ErrorOf(n, s1, s2, y, xy, yy, b, a) <= ErrorOf(n, s1, s2, y, xy, yy, b + db, a + da)
    ensures ErrorOf(n, s1, s2, y, xy, yy, b, a) == ErrorOf(n, s1, s2, y, xy, yy, b + db, a + da) ==>
              db == 0.0 && da == 0.0
  {
    ErrorGap(n, s1, s2, y, xy, yy, b, a, db, da);
    GapPositive(n, s1, s2, db, da, n * da * da + 2.0 * da * db * s1 + db * db * s2);
  }

  /** The least-squares line of the points is the only one with the least error. */
  lemma LeastSquaresIsLeast(ys: seq<int>, n: real, slope: real, intercept: real, db: real, da: real)
    requires |ys| >= 2 && n == |ys| as real
    requires slope == LeastSquaresSlope(ys) && intercept == LineIntercept(n, SumX(n), TotalY(ys), slope)
    ensures SquaredError(ys, slope, intercept) <= SquaredError(ys, slope + db, intercept + da)
    ensures SquaredError(ys, slope, intercept) == SquaredError(ys, slope + db, intercept + da) ==>
              db == 0.0 && da == 0.0
  {
    var s1, s2 := SumX(n), SumXX(n);
    DenomClosedForm(n);
    Solved(n, s1, s2, TotalY(ys), SumXY(ys), slope, intercept);
    ErrorIs(ys, n, s1, s2, slope, intercept);
    ErrorIs(ys, n, s1, s2, slope + db, intercept + da);
    NoneBetter(n, s1, s2, TotalY(ys), SumXY(ys), SumYY(ys), slope, intercept, db, da);
  }
}
