/** The two-state Kalman filter in matrix form, over exact reals, and the hand-expanded scalar
    formulas that the estimator evaluates. */
module Kalman {
  function Dot(a: real, b: real, c: real, d: real): real {
    a * c + b * d
  }

  function Det2(a: real, b: real, c: real, d: real): real {
    a * d - b * c
  }

  /** A 2x2 matrix by rows. */
  datatype Mat = Mat(a00: real, a01: real, a10: real, a11: real) {
    function Times(m: Mat): Mat {
      Mat(Dot(a00, a01, m.a00, m.a10), Dot(a00, a01, m.a01, m.a11),
          Dot(a10, a11, m.a00, m.a10), Dot(a10, a11, m.a01, m.a11))
    }

    function Plus(m: Mat): Mat {
      Mat(a00 + m.a00, a01 + m.a01, a10 + m.a10, a11 + m.a11)
    }

    function Minus(m: Mat): Mat {
      Mat(a00 - m.a00, a01 - m.a01, a10 - m.a10, a11 - m.a11)
    }

    function Scale(s: real): Mat {
      Mat(s * a00, s * a01, s * a10, s * a11)
    }

    function Transpose(): Mat {
      Mat(a00, a10, a01, a11)
    }

    function Det(): real {
      Det2(a00, a01, a10, a11)
    }

    /** Symmetric and positive semidefinite. */
    predicate Psd() {
      a01 == a10 && a00 >= 0.0 && a11 >= 0.0 && Det() >= 0.0
    }
  }

  const IDENTITY := Mat(1.0, 0.0, 0.0, 1.0)

  /** P := A P A' + dt^2 Q with A = [[1, dt], [0, 1]] and Q = diag(qTheta, qF). */
  function Predict(p: Mat, dt: real, qTheta: real, qF: real): Mat {
    var a := Mat(1.0, dt, 0.0, 1.0);
    a.Times(p).Times(a.Transpose()).Plus(Mat(qTheta, 0.0, 0.0, qF).Scale(dt * dt))
  }

  /** Innovation variance C P C' + R for C = [1, 0]. */
  function Innovation(p: Mat, r: real): real {
    p.a00 + r
  }

  /** K C for the Kalman gain K = P C' / (C P C' + R): the gain as a first column. */
  function Gain(p: Mat, r: real): Mat
    requires Innovation(p, r) != 0.0
  {
    Mat(p.a00 / Innovation(p, r), 0.0, p.a10 / Innovation(p, r), 0.0)
  }

  function Joseph(p: Mat, kc: Mat, r: real): Mat {
    var m := IDENTITY.Minus(kc);
    m.Times(p).Times(m.Transpose()).Plus(kc.Times(kc.Transpose()).Scale(r))
  }

  /** Joseph form: P := (I - K C) P (I - K C)' + K R K'. */
  function Correct(p: Mat, r: real): Mat
    requires Innovation(p, r) != 0.0
  {
    Joseph(p, Gain(p, r), r)
  }

  // The scalar formulas, entry by entry, in the order of operations of the estimator.

  function PhaseStep(x: real, y: real, y': real, z: real, dt: real, q: real): real {
    x + dt * (dt * q + y + y' + dt * z)
  }

  function CrossStep(y: real, z: real, dt: real): real {
    y + dt * z
  }

  function FreqStep(z: real, dt: real, q: real): real {
    z + dt * dt * q
  }

  function ScalarPredict(p: Mat, dt: real, qTheta: real, qF: real): Mat {
    Mat(PhaseStep(p.a00, p.a01, p.a10, p.a11, dt, qTheta), CrossStep(p.a01, p.a11, dt),
        CrossStep(p.a10, p.a11, dt), FreqStep(p.a11, dt, qF))
  }

  /** r times a gain x / s. */
  function Weighted(r: real, x: real, s: real): real
    requires s != 0.0
  {
    r * (x / s)
  }

  function CrossDown(r: real, y: real, s: real): real
    requires s != 0.0
  {
    r * y / s
  }

  function FreqDown(z: real, y: real, y': real, s: real): real
    requires s != 0.0
  {
    z - y * y' / s
  }

  function ScalarCorrect(p: Mat, r: real, s: real): Mat
    requires s != 0.0
  {
    Mat(Weighted(r, p.a00, s), CrossDown(r, p.a01, s),
        Weighted(r, p.a10, s), FreqDown(p.a11, p.a01, p.a10, s))
  }

  // Scalar algebra.

  lemma Cancel(x: real, s: real)
    requires s != 0.0
    ensures x / s * s == x
  {
  }

  lemma Distribute(x: real, y: real, z: real)
    ensures x * (y + z) == x * y + x * z && x * (y - z) == x * y - x * z
  {
  }

  // Prediction.

  lemma DotStep(a: real, b: real, dt: real)
    ensures Dot(1.0, dt, a, b) == a + dt * b == Dot(a, b, 1.0, dt)
    ensures Dot(0.0, 1.0, a, b) == b == Dot(a, b, 0.0, 1.0)
  {
  }

  lemma PredictScalar(p: Mat, dt: real, qTheta: real, qF: real)
    ensures Predict(p, dt, qTheta, qF) == ScalarPredict(p, dt, qTheta, qF)
  {
    hide Dot, PhaseStep;
    var a := Mat(1.0, dt, 0.0, 1.0);
    var b00, b01 := p.a00 + dt * p.a10, p.a01 + dt * p.a11;
    DotStep(p.a00, p.a10, dt);
    DotStep(p.a01, p.a11, dt);
    assert a.Times(p) == Mat(b00, b01, p.a10, p.a11);
    var c00, c10 := b00 + dt * b01, p.a10 + dt * p.a11;
    DotStep(b00, b01, dt);
    DotStep(p.a10, p.a11, dt);
    assert a.Times(p).Times(a.Transpose()) == Mat(c00, b01, c10, p.a11);
    PredictedPhase(p.a00, p.a01, p.a10, p.a11, dt, qTheta, b01);
  }

  lemma PredictedPhase(x: real, y: real, y': real, z: real, dt: real, q: real, b01: real)
    requires b01 == y + dt * z
    ensures x + dt * y' + dt * b01 + dt * dt * q == PhaseStep(x, y, y', z, dt, q)
    ensures dt * dt * 0.0 == 0.0
  {
  }

  // Correction.

  /** v v' for the vector v = (x, y). */
  function Outer(x: real, y: real): Mat {
    Mat(x * x, x * y, y * x, y * y)
  }

  function Less(x: real, k: real, y: real): real {
    x - k * y
  }

  /** (I - K C) P (I - K C)' entry by entry, for the gains k0 and k1. */
  function Reduced(p: Mat, k0: real, k1: real): Mat {
    var t00, t01, t10, t11 := Less(p.a00, k0, p.a00), Less(p.a01, k0, p.a01), Less(p.a10, k1, p.a00), Less(p.a11, k1, p.a01);
    Mat(Less(t00, k0, t00), Less(t01, k1, t00), Less(t10, k0, t10), Less(t11, k1, t10))
  }

  lemma DotTop(a: real, b: real, k: real, u: real)
    requires u == 1.0 - k
    ensures Dot(u, 0.0, a, b) == Less(a, k, a) == Dot(a, b, u, 0.0)
  {
  }

  lemma DotBottom(a: real, b: real, k: real, n: real)
    requires n == -k
    ensures Dot(n, 1.0, a, b) == Less(b, k, a) == Dot(a, b, n, 1.0)
  {
  }

  lemma DotColumn(a: real, b: real)
    ensures Dot(a, 0.0, b, 0.0) == a * b
  {
  }

  lemma ReducedProducts(p: Mat, k0: real, k1: real)
    ensures var m := IDENTITY.Minus(Mat(k0, 0.0, k1, 0.0));
            m.Times(p).Times(m.Transpose()) == Reduced(p, k0, k1)
  {
    hide Dot, Less;
    var u, n := 1.0 - k0, -k1;
    var t00, t01, t10, t11 := Less(p.a00, k0, p.a00), Less(p.a01, k0, p.a01), Less(p.a10, k1, p.a00), Less(p.a11, k1, p.a01);
    DotTop(p.a00, p.a10, k0, u);
    DotTop(p.a01, p.a11, k0, u);
    DotBottom(p.a00, p.a10, k1, n);
    DotBottom(p.a01, p.a11, k1, n);
    assert Mat(u, 0.0, n, 1.0).Times(p) == Mat(t00, t01, t10, t11);
    DotTop(t00, t01, k0, u);
    DotBottom(t00, t01, k1, n);
    DotTop(t10, t11, k0, u);
    DotBottom(t10, t11, k1, n);
  }

  lemma GainProducts(k0: real, k1: real)
    ensures Mat(k0, 0.0, k1, 0.0).Times(Mat(k0, 0.0, k1, 0.0).Transpose()) == Outer(k0, k1)
  {
    hide Dot;
    DotColumn(k0, k0);
    DotColumn(k0, k1);
    DotColumn(k1, k0);
    DotColumn(k1, k1);
  }

  lemma JosephProducts(p: Mat, k0: real, k1: real, r: real)
    ensures Joseph(p, Mat(k0, 0.0, k1, 0.0), r) == Reduced(p, k0, k1).Plus(Outer(k0, k1).Scale(r))
  {
    hide Reduced, Outer, Mat.Times, Mat.Plus, Mat.Scale, Mat.Transpose, Mat.Minus;
    ReducedProducts(p, k0, k1);
    GainProducts(k0, k1);
  }

  function Noise(r: real, k: real, l: real): real {
    r * (k * l)
  }

  lemma NoiseEntries(r: real, k0: real, k1: real)
    ensures Outer(k0, k1).Scale(r) == Mat(Noise(r, k0, k0), Noise(r, k0, k1), Noise(r, k1, k0), Noise(r, k1, k1))
  {
  }

  /** One entry of the Joseph sum: with t = r k, the gain terms cancel. */
  lemma JosephEntry(x: real, r: real, k: real, l: real, t: real)
    requires t == r * k
    ensures Less(x, l, t) + Noise(r, k, l) == x
  {
  }

  lemma Reduction(y: real, x: real, k: real, r: real, s: real)
    requires s == x + r && k * s == y
    ensures Less(y, k, x) == r * k
  {
  }

  /** The corrected covariance in terms of the gains. */
  function Corrected(y: real, z: real, r: real, k0: real, k1: real): Mat {
    Mat(r * k0, Less(y, k0, y), r * k1, Less(z, k1, y))
  }

  /** For a gain with k0 s = p00 and k1 s = p10, where s = p00 + r. */
  lemma JosephSum(p: Mat, k0: real, k1: real, r: real, s: real)
    requires s == p.a00 + r && k0 * s == p.a00 && k1 * s == p.a10
    ensures Joseph(p, Mat(k0, 0.0, k1, 0.0), r) == Corrected(p.a01, p.a11, r, k0, k1)
  {
    var t00, t01, t10, t11 := Less(p.a00, k0, p.a00), Less(p.a01, k0, p.a01), Less(p.a10, k1, p.a00), Less(p.a11, k1, p.a01);
    hide Joseph, Less, Noise, Outer, Mat.Scale;
    JosephProducts(p, k0, k1, r);
    NoiseEntries(r, k0, k1);
    Reduction(p.a00, p.a00, k0, r, s);
    Reduction(p.a10, p.a00, k1, r, s);
    JosephEntry(t00, r, k0, k0, t00);
    JosephEntry(t01, r, k0, k1, t00);
    JosephEntry(t10, r, k1, k0, t10);
    JosephEntry(t11, r, k1, k1, t10);
  }

  /** The corrected covariance with the two gains named. */
  lemma CorrectWithGain(p: Mat, r: real, s: real, k0: real, k1: real)
    requires s == Innovation(p, r) > 0.0 && k0 == p.a00 / s && k1 == p.a10 / s
    ensures k0 * s == p.a00 && k1 * s == p.a10
    ensures Correct(p, r) == Corrected(p.a01, p.a11, r, k0, k1)
  {
    Cancel(p.a00, s);
    Cancel(p.a10, s);
    assert Gain(p, r) == Mat(k0, 0.0, k1, 0.0);
    hide Joseph, Corrected;
    JosephSum(p, k0, k1, r, s);
  }

  lemma CorrectScalar(p: Mat, r: real)
    requires Innovation(p, r) > 0.0
    ensures Correct(p, r) == ScalarCorrect(p, r, Innovation(p, r))
  {
    var s := Innovation(p, r);
    var k0, k1 := p.a00 / s, p.a10 / s;
    CorrectWithGain(p, r, s, k0, k1);
    hide Correct, Weighted, CrossDown, FreqDown;
    GainEntries(p, r, s, k0, k1, Correct(p, r));
  }

  lemma GainEntries(p: Mat, r: real, s: real, k0: real, k1: real, c: Mat)
    requires s == p.a00 + r && s != 0.0 && k0 == p.a00 / s && k1 == p.a10 / s
    requires c == Corrected(p.a01, p.a11, r, k0, k1)
    ensures c == ScalarCorrect(p, r, s)
  {
  }

  lemma WeightedGain(r: real, x: real, s: real, k: real)
    requires s != 0.0 && k == x / s
    ensures Weighted(r, x, s) == r * k
  {
  }

  lemma Remainder(x: real, k0: real, p00: real, r: real, s: real, y: real)
    requires s == p00 + r && k0 * s == p00 && y == x - k0 * x
    ensures y * s == r * x
  {
  }

  /** The determinant times exactly r / (p00 + r). */
  function ShrunkDet(p: Mat, r: real): real
    requires Innovation(p, r) != 0.0
  {
    r / Innovation(p, r) * p.Det()
  }

  lemma CorrectDet(p: Mat, r: real)
    requires Innovation(p, r) > 0.0
    ensures Correct(p, r).Det() == ShrunkDet(p, r)
  {
    var s := Innovation(p, r);
    var k0, k1 := p.a00 / s, p.a10 / s;
    CorrectWithGain(p, r, s, k0, k1);
    Cancel(r, s);
    hide Correct, Mat.Det;
    DetWithGain(p, r, s, k0, k1, r / s, Correct(p, r));
  }

  lemma DetWithGain(p: Mat, r: real, s: real, k0: real, k1: real, f: real, c: Mat)
    requires k0 * s == p.a00 && k1 * s == p.a10 && f * s == r
    requires c == Corrected(p.a01, p.a11, r, k0, k1)
    ensures c.Det() == f * p.Det()
  {
  }

  // Positive semidefiniteness.

  lemma NonNegative(x: real, y: real)
    requires x >= 0.0 && y >= 0.0
    ensures x * y >= 0.0
  {
  }

  lemma Square(x: real)
    ensures x * x >= 0.0
  {
  }

  lemma SquarePositive(x: real)
    requires x != 0.0
    ensures x * x > 0.0
  {
  }

  lemma CorrectedVariances(x: real, y: real, y': real, z: real, r: real, s: real)
    requires x >= 0.0 && z >= 0.0 && Det2(x, y, y', z) >= 0.0 && y == y' && r > 0.0 && s == x + r
    ensures 0.0 <= Weighted(r, x, s) < r && 0.0 <= FreqDown(z, y, y', s) <= z
    ensures CrossDown(r, y, s) == Weighted(r, y', s)
    ensures r / s >= 0.0
  {
  }

  /** Correcting keeps the covariance valid, shrinks its determinant by exactly r / (p00 + r), and
      leaves the phase variance below that of the measurement. */
  lemma CorrectPsd(p: Mat, r: real)
    requires p.Psd() && r > 0.0
    ensures Correct(p, r).Psd()
    ensures Correct(p, r).Det() == ShrunkDet(p, r)
    ensures Correct(p, r).a00 < r && Correct(p, r).a11 <= p.a11
  {
    assert p.a00 >= 0.0;
    hide Correct, Mat.Det, Mat.Psd, Det2, ShrunkDet;
    CorrectScalar(p, r);
    CorrectDet(p, r);
    CorrectedPsd(p, r, Innovation(p, r), Correct(p, r));
  }

  lemma CorrectedPsd(p: Mat, r: real, s: real, c: Mat)
    requires p.Psd() && r > 0.0 && s == Innovation(p, r)
    requires c == ScalarCorrect(p, r, s)
    requires c.Det() == ShrunkDet(p, r)
    ensures c.Psd() && c.a00 < r && c.a11 <= p.a11
  {
    hide Weighted, CrossDown, FreqDown, Det2;
    CorrectedVariances(p.a00, p.a01, p.a10, p.a11, r, s);
    NonNegative(r / s, p.Det());
  }

  lemma Expand(x: real, y: real, z: real, t: real, b00: real, b01: real)
    requires b00 == x + t * (y + y + t * z) && b01 == y + t * z
    ensures b00 * z - b01 * b01 == x * z - y * y
  {
  }

  /** The unimodular step A P A' keeps the determinant and the sign of the phase variance. */
  lemma Propagated(x: real, y: real, z: real, t: real, b00: real, b01: real)
    requires x >= 0.0 && z >= 0.0 && Det2(x, y, y, z) >= 0.0
    requires b00 == x + t * (y + y + t * z) && b01 == y + t * z
    ensures b00 >= 0.0 && Det2(b00, b01, b01, z) == Det2(x, y, y, z)
  {
    Expand(x, y, z, t, b00, b01);
    Square(b01);
    if z == 0.0 {
      assert y * y <= 0.0;
      if y != 0.0 {
        SquarePositive(y);
      }
    } else {
      assert b00 * z >= 0.0;
      PositiveFactor(b00, z);
    }
  }

  lemma PositiveFactor(x: real, y: real)
    requires x * y >= 0.0 && y > 0.0
    ensures x >= 0.0
  {
  }

  lemma Inflated(b00: real, b11: real, b01: real, a: real, b: real, m00: real, m11: real)
    requires b00 >= 0.0 && b11 >= 0.0 && a >= 0.0 && b >= 0.0
    requires m00 == b00 + a && m11 == b11 + b
    ensures Det2(m00, b01, b01, m11) >= Det2(b00, b01, b01, b11)
  {
  }

  lemma PhaseSplit(x: real, y: real, y': real, z: real, dt: real, q: real, b00: real, a: real)
    requires y == y' && q >= 0.0 && b00 == x + dt * (y + y + dt * z) && a == dt * dt * q
    ensures PhaseStep(x, y, y', z, dt, q) == b00 + a && a >= 0.0
  {
  }

  lemma FreqSplit(z: real, dt: real, q: real, b: real)
    requires q >= 0.0 && b == dt * dt * q
    ensures FreqStep(z, dt, q) == z + b && b >= 0.0
  {
  }

  lemma PredictedVariances(x: real, y: real, y': real, z: real, dt: real, qTheta: real, qF: real, m: Mat)
    requires x >= 0.0 && z >= 0.0 && Det2(x, y, y', z) >= 0.0 && y == y' && qTheta >= 0.0 && qF >= 0.0
    requires m.a00 == PhaseStep(x, y, y', z, dt, qTheta) && m.a11 == FreqStep(z, dt, qF)
    requires m.a01 == CrossStep(y, z, dt) && m.a10 == CrossStep(y', z, dt)
    ensures m.Psd() && m.Det() >= Det2(x, y, y', z)
  {
    hide PhaseStep, FreqStep;
    var b00, b01 := x + dt * (y + y + dt * z), y + dt * z;
    var a, b := dt * dt * qTheta, dt * dt * qF;
    PhaseSplit(x, y, y', z, dt, qTheta, b00, a);
    FreqSplit(z, dt, qF, b);
    Propagated(x, y, z, dt, b00, b01);
    hide Det2;
    Inflated(b00, z, b01, a, b, m.a00, m.a11);
  }

  /** Predicting keeps the covariance valid and never lowers its determinant. */
  lemma PredictPsd(p: Mat, dt: real, qTheta: real, qF: real)
    requires p.Psd() && qTheta >= 0.0 && qF >= 0.0
    ensures Predict(p, dt, qTheta, qF).Psd()
    ensures Predict(p, dt, qTheta, qF).Det() >= p.Det()
  {
    PredictScalar(p, dt, qTheta, qF);
    hide Predict, Mat.Psd, Mat.Det;
    PredictedPsd(p, dt, qTheta, qF, Predict(p, dt, qTheta, qF));
  }

  lemma PredictedPsd(p: Mat, dt: real, qTheta: real, qF: real, m: Mat)
    requires p.Psd() && qTheta >= 0.0 && qF >= 0.0
    requires m == ScalarPredict(p, dt, qTheta, qF)
    ensures m.Psd() && m.Det() >= p.Det()
  {
    hide PhaseStep, CrossStep, FreqStep, Det2;
    PredictedVariances(p.a00, p.a01, p.a10, p.a11, dt, qTheta, qF, m);
  }
}
