/**
 * `fit` of the spike's `measure.ts`, over exact reals: the least squares of
 * `writeMs ~ a * mutations + b * closes * versionsBefore`.
 */
module LeastSquares {
  import opened Options

  datatype Sample = Sample(mutations: nat, closes: nat, versionsBefore: nat, writeMs: real)

  datatype Coefficients = Coefficients(a: real, b: real)

  function Square(x: real): real { x * x }

  lemma SquareSign(x: real)
    ensures Square(x) >= 0.0
    ensures Square(x) == 0.0 <==> x == 0.0
  {
    if x > 0.0 {
      PositiveProduct(x, x, Square(x));
    } else if x < 0.0 {
      PositiveProduct(-x, -x, Square(x));
    }
  }

  lemma PositiveProduct(x: real, y: real, xy: real)
    requires x > 0.0 && y > 0.0 && xy == x * y
    ensures xy > 0.0
  {
  }

  function X1(p: Sample): real { p.mutations as real }

  function X2(p: Sample): real { (p.closes * p.versionsBefore) as real }

  /** The five sums the loop accumulates. */
  datatype Sums = Sums(s11: real, s12: real, s22: real, y1: real, y2: real) {
    function Det(): real { s11 * s22 - s12 * s12 }
  }

  function Added(s: Sums, x1: real, x2: real, y: real): Sums {
    Sums(s.s11 + x1 * x1, s.s12 + x1 * x2, s.s22 + x2 * x2, s.y1 + x1 * y, s.y2 + x2 * y)
  }

  function SumsOf(points: seq<Sample>): Sums {
    if points == [] then Sums(0.0, 0.0, 0.0, 0.0, 0.0)
    else
      var p := points[|points| - 1];
      Added(SumsOf(points[..|points| - 1]), X1(p), X2(p), p.writeMs)
  }

  function Error(p: Sample, a: real, b: real): real { p.writeMs - a * X1(p) - b * X2(p) }

  /** The sum of squared errors of a pair of coefficients. */
  function Errors(points: seq<Sample>, a: real, b: real): real {
    if points == [] then 0.0
    else
      var p := points[|points| - 1];
      Errors(points[..|points| - 1], a, b) + Square(Error(p, a, b))
  }

  predicate SolvesNormalEquations(s: Sums, c: Coefficients) {
    c.a * s.s11 + c.b * s.s12 == s.y1 && c.a * s.s12 + c.b * s.s22 == s.y2
  }

  lemma CramersRule(s: Sums, c: Coefficients)
    requires s.Det() != 0.0
    requires c == Coefficients((s.y1 * s.s22 - s.y2 * s.s12) / s.Det(), (s.s11 * s.y2 - s.s12 * s.y1) / s.Det())
    ensures SolvesNormalEquations(s, c)
  {
    var det := s.Det();
    Cancel(c.a, s.y1 * s.s22 - s.y2 * s.s12, det);
    Cancel(c.b, s.s11 * s.y2 - s.s12 * s.y1, det);
    assert (c.a * s.s11 + c.b * s.s12) * det == s.y1 * det by {
      assert (c.a * s.s11 + c.b * s.s12) * det == (c.a * det) * s.s11 + (c.b * det) * s.s12;
    }
    assert (c.a * s.s12 + c.b * s.s22) * det == s.y2 * det by {
      assert (c.a * s.s12 + c.b * s.s22) * det == (c.a * det) * s.s12 + (c.b * det) * s.s22;
    }
    EqualFactors(c.a * s.s11 + c.b * s.s12, s.y1, det);
    EqualFactors(c.a * s.s12 + c.b * s.s22, s.y2, det);
  }

  lemma Cancel(q: real, x: real, d: real)
    requires d != 0.0 && q == x / d
    ensures q * d == x
  {
  }

  lemma EqualFactors(x: real, y: real, d: real)
    requires d != 0.0 && x * d == y * d
    ensures x == y
  {
    assert (x - y) * d == 0.0;
  }

  function Solution(s: Sums): (c: Coefficients)
    requires s.Det() != 0.0
    ensures SolvesNormalEquations(s, c)
  {
    var c := Coefficients((s.y1 * s.s22 - s.y2 * s.s12) / s.Det(), (s.s11 * s.y2 - s.s12 * s.y1) / s.Det());
    CramersRule(s, c);
    c
  }

  // ---------------------------------------------------------------------- the minimum

  /** How far the prediction for a sample moves. */
  function Shift(p: Sample, d1: real, d2: real): real { d1 * X1(p) + d2 * X2(p) }

  /** How far two fits differ over the samples. */
  function Squares(points: seq<Sample>, d1: real, d2: real): (q: real)
    ensures q >= 0.0
  {
    if points == [] then 0.0
    else
      var p := points[|points| - 1];
      SquareSign(Shift(p, d1, d2));
      Squares(points[..|points| - 1], d1, d2) + Square(Shift(p, d1, d2))
  }

  function Form(s: Sums, d1: real, d2: real): real { s.s11 * d1 * d1 + 2.0 * s.s12 * d1 * d2 + s.s22 * d2 * d2 }

  /** Twice what the normal equations leave over at `(a, b)`, along `(d1, d2)`. */
  function Slope(s: Sums, a: real, b: real, d1: real, d2: real): real {
    2.0 * d1 * (s.y1 - a * s.s11 - b * s.s12) + 2.0 * d2 * (s.y2 - a * s.s12 - b * s.s22)
  }

  lemma FormAdds(s: Sums, p: Sample, d1: real, d2: real)
    ensures Form(Added(s, X1(p), X2(p), p.writeMs), d1, d2) == Form(s, d1, d2) + Square(Shift(p, d1, d2))
  {
  }

  lemma ZeroSums(a: real, b: real, d1: real, d2: real)
    ensures Form(SumsOf([]), d1, d2) == 0.0 && Slope(SumsOf([]), a, b, d1, d2) == 0.0
  {
  }

  lemma {:induction false} SquaresAreTheForm(points: seq<Sample>, d1: real, d2: real)
    ensures Squares(points, d1, d2) == Form(SumsOf(points), d1, d2)
  {
    hide Square, Added, Form, Shift, X1, X2;
    if points == [] {
      ZeroSums(0.0, 0.0, d1, d2);
    } else {
      var p, front := points[|points| - 1], points[..|points| - 1];
      SquaresAreTheForm(front, d1, d2);
      FormAdds(SumsOf(front), p, d1, d2);
    }
  }

  lemma SlopeAdds(s: Sums, x1: real, x2: real, y: real, a: real, b: real, d1: real, d2: real)
    ensures Slope(Added(s, x1, x2, y), a, b, d1, d2)
         == Slope(s, a, b, d1, d2) + 2.0 * ((d1 * x1 + d2 * x2) * (y - a * x1 - b * x2))
  {
    Residual(s.y1, s.s11, s.s12, x1 * y, x1 * x1, x1 * x2, a, b, d1);
    Residual(s.y2, s.s12, s.s22, x2 * y, x1 * x2, x2 * x2, a, b, d2);
    var e := y - a * x1 - b * x2;
    assert x1 * y - a * (x1 * x1) - b * (x1 * x2) == x1 * e;
    assert x2 * y - a * (x1 * x2) - b * (x2 * x2) == x2 * e;
    assert (d1 * x1 + d2 * x2) * e == d1 * (x1 * e) + d2 * (x2 * e);
  }

  lemma Residual(y: real, u: real, v: real, y': real, u': real, v': real, a: real, b: real, d: real)
    ensures 2.0 * d * ((y + y') - a * (u + u') - b * (v + v')) == 2.0 * d * (y - a * u - b * v) + 2.0 * d * (y' - a * u' - b * v')
  {
  }

  lemma ErrorMoved(p: Sample, a: real, b: real, d1: real, d2: real)
    ensures
      var q := Shift(p, d1, d2);
      Square(Error(p, a + d1, b + d2)) == Square(Error(p, a, b)) + Square(q) - 2.0 * (q * Error(p, a, b))
  {
    var e, q := Error(p, a, b), Shift(p, d1, d2);
    assert Error(p, a + d1, b + d2) == e - q;
    assert (e - q) * (e - q) == e * e + q * q - 2.0 * (q * e);
  }

  lemma ErrorsMovedOne(p: Sample, s: Sums, a: real, b: real, d1: real, d2: real)
    ensures Square(Error(p, a + d1, b + d2)) - Square(Error(p, a, b)) - Square(Shift(p, d1, d2))
         == Slope(s, a, b, d1, d2) - Slope(Added(s, X1(p), X2(p), p.writeMs), a, b, d1, d2)
  {
    hide Square, Slope, Added, X1, X2;
    ErrorMoved(p, a, b, d1, d2);
    SlopeAdds(s, X1(p), X2(p), p.writeMs, a, b, d1, d2);
  }

  /** Moving away from `(a, b)` by `(d1, d2)` costs `Squares`, less the slope. */
  lemma {:induction false} ErrorsMoved(points: seq<Sample>, a: real, b: real, d1: real, d2: real)
    ensures Errors(points, a + d1, b + d2)
         == Errors(points, a, b) + Squares(points, d1, d2) - Slope(SumsOf(points), a, b, d1, d2)
  {
    hide Square, Added, Slope, Error, Shift, X1, X2;
    if points == [] {
      ZeroSums(a, b, d1, d2);
    } else {
      var p, front := points[|points| - 1], points[..|points| - 1];
      ErrorsMoved(front, a, b, d1, d2);
      ErrorsMovedOne(p, SumsOf(front), a, b, d1, d2);
    }
  }

  /** With a determinant, samples that see no difference between two fits see the same fit. */
  lemma OnlyZeroVanishes(points: seq<Sample>, d1: real, d2: real)
    requires SumsOf(points).Det() != 0.0 && Squares(points, d1, d2) == 0.0
    ensures d1 == 0.0 && d2 == 0.0
  {
    SquaresAreTheForm(points, d1, d2);
    DetPositive(points);
    DefiniteForm(SumsOf(points), d1, d2);
  }

  lemma DefiniteForm(s: Sums, d1: real, d2: real)
    requires s.Det() > 0.0 && Form(s, d1, d2) == 0.0
    ensures d1 == 0.0 && d2 == 0.0
  {
    CompletedSquare(s.s11, s.s12, s.s22, d1, d2);
    CompletedSquare(s.s22, s.s12, s.s11, d2, d1);
    ZeroFactor(s.s11 * d1 + s.s12 * d2, s.Det(), d2);
    ZeroFactor(s.s22 * d2 + s.s12 * d1, s.Det(), d1);
  }

  lemma CompletedSquare(s11: real, s12: real, s22: real, d1: real, d2: real)
    ensures s11 * (s11 * d1 * d1 + 2.0 * s12 * d1 * d2 + s22 * d2 * d2)
         == (s11 * d1 + s12 * d2) * (s11 * d1 + s12 * d2) + (s11 * s22 - s12 * s12) * (d2 * d2)
  {
  }

  lemma ZeroFactor(x: real, det: real, d: real)
    requires det > 0.0 && x * x + det * (d * d) == 0.0
    ensures d == 0.0
  {
    SquareSign(x);
    SquareSign(d);
    if Square(d) > 0.0 { PositiveProduct(det, Square(d), det * Square(d)); }
  }

  lemma DetPositive(points: seq<Sample>)
    requires SumsOf(points).Det() != 0.0
    ensures SumsOf(points).Det() > 0.0
  {
    hide Squares, SumsOf, Form;
    var s := SumsOf(points);
    SquaresAreTheForm(points, 1.0, 0.0);
    SquaresAreTheForm(points, -s.s12, s.s11);
    if s.s11 == 0.0 { SquaresAreTheForm(points, Below(s), 1.0); }
    DetSign(s);
  }

  /** A move along which the form would be negative, were `s11` zero. */
  function Below(s: Sums): real
    requires s.s12 != 0.0
  {
    -(s.s22 + 1.0) / (2.0 * s.s12)
  }

  lemma DetSign(s: Sums)
    requires s.Det() != 0.0 && Form(s, 1.0, 0.0) >= 0.0 && Form(s, -s.s12, s.s11) >= 0.0
    requires s.s11 == 0.0 && s.s12 != 0.0 ==> Form(s, Below(s), 1.0) >= 0.0
    ensures s.Det() > 0.0
  {
    if s.s11 == 0.0 {
      assert s.s12 != 0.0;
      assert Form(s, Below(s), 1.0) == 2.0 * s.s12 * Below(s) + s.s22;
      Cancel(Below(s), -(s.s22 + 1.0), 2.0 * s.s12);
    } else {
      assert Form(s, -s.s12, s.s11) == s.s11 * s.Det();
      if s.Det() < 0.0 { PositiveProduct(s.s11, -s.Det(), s.s11 * (-s.Det())); }
    }
  }

  /** A fit that solves the normal equations has the smallest error, and no other pair has it. */
  lemma FitIsTheOnlyMinimum(points: seq<Sample>, c: Coefficients, a: real, b: real)
    requires SumsOf(points).Det() != 0.0 && SolvesNormalEquations(SumsOf(points), c)
    ensures Errors(points, a, b) >= Errors(points, c.a, c.b)
    ensures Errors(points, a, b) == Errors(points, c.a, c.b) ==> a == c.a && b == c.b
  {
    hide SumsOf, Slope, Errors, Squares;
    ErrorsMoved(points, c.a, c.b, a - c.a, b - c.b);
    SlopeIsZero(SumsOf(points), c, a - c.a, b - c.b);
    assert c.a + (a - c.a) == a && c.b + (b - c.b) == b;
    if Squares(points, a - c.a, b - c.b) == 0.0 { OnlyZeroVanishes(points, a - c.a, b - c.b); }
  }

  lemma SlopeIsZero(s: Sums, c: Coefficients, d1: real, d2: real)
    requires SolvesNormalEquations(s, c)
    ensures Slope(s, c.a, c.b, d1, d2) == 0.0
  {
    assert s.y1 - c.a * s.s11 - c.b * s.s12 == 0.0 && s.y2 - c.a * s.s12 - c.b * s.s22 == 0.0;
  }

  /** Where there is no determinant there is no one answer: any pair shares its error with another. */
  lemma NoDeterminantNoAnswer(points: seq<Sample>, a: real, b: real) returns (a': real, b': real)
    requires SumsOf(points).Det() == 0.0
    ensures (a', b') != (a, b) && Errors(points, a', b') == Errors(points, a, b)
  {
    hide Squares, SumsOf, Errors;
    var s := SumsOf(points);
    var d1, d2 := if s.s11 == 0.0 then 1.0 else -s.s12, s.s11;
    SquaresAreTheForm(points, d1, d2);
    assert Form(s, d1, d2) == 0.0 by {
      if s.s11 != 0.0 { assert Form(s, d1, d2) == s.s11 * s.Det(); }
    }
    VanishingMove(points, a, b, d1, d2);
    a', b' := a + d1, b + d2;
  }

  /** A move no sample sees leaves the error as it is. */
  lemma {:induction false} VanishingMove(points: seq<Sample>, a: real, b: real, d1: real, d2: real)
    requires Squares(points, d1, d2) == 0.0
    ensures Errors(points, a + d1, b + d2) == Errors(points, a, b)
  {
    if points != [] {
      var p, front := points[|points| - 1], points[..|points| - 1];
      SquareSign(Shift(p, d1, d2));
      VanishingMove(front, a, b, d1, d2);
      assert Error(p, a + d1, b + d2) == Error(p, a, b) - Shift(p, d1, d2);
    }
  }

  // -------------------------------------------------------------------------- the loop

  /** None where the division by the determinant would be by zero. */
  method Fit(points: seq<Sample>) returns (r: Option<Coefficients>)
    ensures r.None? <==> SumsOf(points).Det() == 0.0
    ensures r.Some? ==> SolvesNormalEquations(SumsOf(points), r.value)
    ensures r.Some? ==> forall a, b :: Errors(points, a, b) >= Errors(points, r.value.a, r.value.b)
  {
    var s := Sums(0.0, 0.0, 0.0, 0.0, 0.0);
    for i := 0 to |points|
      invariant s == SumsOf(points[..i])
    {
      var p := points[i];
      assert points[..i + 1][..i] == points[..i];
      s := Added(s, p.mutations as real, (p.closes * p.versionsBefore) as real, p.writeMs);
    }
    assert points[..|points|] == points;
    if s.Det() == 0.0 { return None; }
    r := Some(Solution(s));
    forall a, b ensures Errors(points, a, b) >= Errors(points, r.value.a, r.value.b) {
      FitIsTheOnlyMinimum(points, r.value, a, b);
    }
  }
}
