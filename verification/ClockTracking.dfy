/** What the estimator's numbers mean: how its state moves with a measurement, how its errors move and
    that the covariance is theirs, that it holds on to a steady clock, and the units it works in. */
module ClockTracking {
  import opened Words
  import opened Kalman
  import opened FreqEst

  const UNITS_PER_TICK: real := 4294967296.0

  // How a measurement moves the state.

  /** x has moved to y by p / s of the error. */
  predicate MovedBy(x: real, y: real, p: real, s: real, error: int) {
    s > 0.0 && (y - x) * s == p * error as real
  }

  lemma MovedByGain(x: real, y: real, p: real, s: real, error: int)
    requires s > 0.0 && y == x + Scale(error, p / s)
    ensures MovedBy(x, y, p, s, error)
  {
    var k := p / s;
    Cancel(p, s);
    assert error as real * k * s == error as real * (k * s);
  }

  /** What settling does, with the gains written out. */
  lemma SettleMoves(t: Tuning, x: Filter, error: int)
    requires x.p.a00 + t.r > 0.0
    ensures var (y, result, inc) := Settle(t, x, error);
            && (if result.Ok?
                then y.f == x.f + Scale(error, x.p.a10 / (x.p.a00 + t.r)) && inc == Scale(error, x.p.a00 / (x.p.a00 + t.r))
                     && y.p == Correct(x.p, t.r)
                else y.f == x.f && inc == 0.0 && y.p == x.p)
            && y.status == if result.OutlierReset? then Reset else x.status
  {
    hide Correct, IsOutlier, Scale;
  }

  /** An accepted measurement moves the frequency by p10 / (p00 + r) and the phase by p00 / (p00 + r) of
      the innovation, p being the predicted covariance, and corrects the covariance; a rejected one does
      none of these. Only a resynchronisation changes the status. */
  lemma MeasurementMoves(t: Tuning, x: Filter, dt: real, input: int, error: int)
    requires t.Sane() && x.p.Psd()
    ensures var (y, result, inc) := Update(t, x, dt, input, error);
            var prior, rate := Predict(x.p, dt, t.qTheta, t.qF), x.f + input as real * t.kU;
            && prior.a00 + t.r > 0.0
            && (if result.Ok?
                then MovedBy(rate, y.f, prior.a10, prior.a00 + t.r, error) && MovedBy(0.0, inc, prior.a00, prior.a00 + t.r, error)
                     && y.p == Correct(prior, t.r)
                else y.f == rate && inc == 0.0 && y.p == prior)
            && y.status == if result.OutlierReset? then Reset else x.status
  {
    var prior, rate := Predict(x.p, dt, t.qTheta, t.qF), x.f + input as real * t.kU;
    PredictPsd(x.p, dt, t.qTheta, t.qF);
    assert prior.a00 >= 0.0;
    assert Propagate(t, x, dt, input) == x.(f := rate, p := prior);
    hide Predict, Correct, Settle, Scale, Mat.Psd, Propagate, MovedBy;
    var (y, result, inc) := Update(t, x, dt, input, error);
    SettleMoves(t, x.(f := rate, p := prior), error);
    if result.Ok? {
      MovedByGain(rate, y.f, prior.a10, prior.a00 + t.r, error);
      MovedByGain(0.0, inc, prior.a00, prior.a00 + t.r, error);
    }
  }

  /** n is x without its fraction. */
  predicate Truncates(n: int, x: real) {
    if x >= 0.0 then x - 1.0 < n as real <= x else x <= n as real < x + 1.0
  }

  lemma TruncatesTowardsZero(x: real)
    ensures Truncates(Truncate(x), x)
  {
  }

  lemma TruncatesExactly(n: int, m: int, x: real)
    requires Truncates(n, x) && m as real == x
    ensures n == m
  {
  }

  /** The phase gained over a span of time at a rate. */
  function Gained(span: int, rate: real): real {
    span as real / UNITS_PER_TICK * rate
  }

  /** The phase is predicted by the time step in ticks times the rate, without the fraction. */
  lemma PredictedPhase(t: Tuning, e: Est, local: int, input: int, rate: real)
    requires rate == e.filter.f + input as real * t.kU
    ensures Truncates(IdealTheta(t, e, local, input) - e.theta, Gained(local - e.lastTime, rate))
  {
    hide Truncate;
    TruncatesTowardsZero(Drift(t, e.filter, Ticks(local - e.lastTime), input));
  }

  /** So is the phase by which a local time is converted. */
  lemma ConvertedPhase(e: Est, time: int)
    requires !e.filter.status.Reset?
    ensures Truncates(time - IdealCentral(e, time) - e.theta, Gained(time - e.lastTime, e.filter.f))
  {
    hide Truncate;
    TruncatesTowardsZero(Elapsed(e.filter, time - e.lastTime));
  }

  // A steady clock: between two samples the true phase, local less central time, grows at a constant rate.

  ghost predicate Steady(local: int, ref: int, local': int, ref': int, rate: real) {
    ((local' - ref') - (local - ref)) as real == Gained(local' - local, rate)
  }

  /** How far the estimate is off. */
  function PhaseError(e: Est, ref: int): int {
    e.theta - (e.lastTime - ref)
  }

  lemma GainedSplit(span: int, f: real, rate: real)
    ensures Gained(span, f) == Gained(span, f - rate) + Gained(span, rate)
  {
    var d := span as real / UNITS_PER_TICK;
    assert d * f == d * (f - rate) + d * rate;
  }

  lemma NoInput(f: real, k: real)
    ensures f + 0 as real * k == f
  {
  }

  lemma TruncatesNear(n: int, x: real)
    requires Truncates(n, x)
    ensures -1.0 < n as real - x < 1.0
  {
  }

  /** On a steady clock the phase error grows by the time step times the rate error, up to truncation. */
  lemma ErrorGrows(t: Tuning, e: Est, was: int, local: int, ref: int, rate: real)
    requires Steady(e.lastTime, was, local, ref, rate)
    ensures var predicted := IdealTheta(t, e, local, 0) - (local - ref);
            var grown := PhaseError(e, was) as real + Gained(local - e.lastTime, e.filter.f - rate);
            -1.0 < predicted as real - grown < 1.0
  {
    hide IdealTheta, Truncates, Gained;
    NoInput(e.filter.f, t.kU);
    PredictedPhase(t, e, local, 0, e.filter.f);
    TruncatesNear(IdealTheta(t, e, local, 0) - e.theta, Gained(local - e.lastTime, e.filter.f));
    GainedSplit(local - e.lastTime, e.filter.f, rate);
  }

  /** An update starts from the predicted phase. */
  lemma StepIsUpdate(t: Tuning, e: Est, local: int, ref: int, input: int)
    requires t.Sane() && e.filter.p.Psd() && !e.filter.status.Reset?
    ensures var (e', result) := IdealStep(t, e, local, ref, input);
            var theta := IdealTheta(t, e, local, input);
            var (y, r, inc) := Update(t, e.filter, Ticks(local - e.lastTime), input, local - ref - theta);
            e' == Est(local, if r.Ok? then theta + Truncate(inc) else theta, y) && result == r
  {
    hide Update, IdealTheta, Truncate, Mat.Psd, Ticks;
  }

  lemma RateErrorMoves(f: real, f': real, was: real, rate: real, p: real, s: real, error: int)
    requires was == f && MovedBy(was, f', p, s, error)
    ensures MovedBy(f - rate, f' - rate, p, s, error)
  {
    assert (f' - rate) - (f - rate) == f' - was;
  }

  lemma Opposite(n: int, k: real)
    ensures Scale(-n, k) == -Scale(n, k)
  {
  }

  /** An accepted measurement leaves r / (p00 + r) of the phase error, up to truncation, and takes
      p10 / (p00 + r) of it off the rate error. A rejected one leaves both as predicted. */
  lemma ErrorSettles(t: Tuning, e: Est, local: int, ref: int, rate: real)
    requires t.Sane() && e.filter.p.Psd() && !e.filter.status.Reset?
    ensures var (e', result) := IdealStep(t, e, local, ref, 0);
            var prior := Predict(e.filter.p, Ticks(local - e.lastTime), t.qTheta, t.qF);
            var predicted := IdealTheta(t, e, local, 0) - (local - ref);
            && prior.a00 + t.r > 0.0
            && (if result.Ok?
                then -1.0 < PhaseError(e', ref) as real - Scale(predicted, t.r / (prior.a00 + t.r)) < 1.0
                     && MovedBy(e.filter.f - rate, e'.filter.f - rate, prior.a10, prior.a00 + t.r, -predicted)
                else PhaseError(e', ref) == predicted && e'.filter.f == e.filter.f)
  {
    hide Predict, Correct, Update, IdealTheta, IdealStep, Truncate, Scale, Ticks, Mat.Psd, MovedBy;
    var dt, f := Ticks(local - e.lastTime), e.filter.f;
    var prior, error := Predict(e.filter.p, dt, t.qTheta, t.qF), local - ref - IdealTheta(t, e, local, 0);
    StepIsUpdate(t, e, local, ref, 0);
    MeasurementMoves(t, e.filter, dt, 0, error);
    NoInput(f, t.kU);
    var (e', result) := IdealStep(t, e, local, ref, 0);
    if result.Ok? {
      AcceptedResidual(t, e, local, ref, 0);
      Opposite(error, t.r / (prior.a00 + t.r));
      RateErrorMoves(f, e'.filter.f, f + 0 as real * t.kU, rate, prior.a10, prior.a00 + t.r, error);
    }
  }

  // The covariance is that of these errors.

  lemma OuterStep(d: real, e: real, dt: real, g: real)
    requires g == d + dt * e
    ensures PhaseStep(d * d, d * e, e * d, e * e, dt, 0.0) == g * g
    ensures CrossStep(d * e, e * e, dt) == g * e && CrossStep(e * d, e * e, dt) == e * g
    ensures FreqStep(e * e, dt, 0.0) == e * e
  {
    assert g * g == d * d + dt * (d * e) + dt * (d * e) + dt * dt * (e * e);
  }

  /** Without process noise, predicting moves the covariance of an error as the error moves. */
  lemma PredictMovesErrors(d: real, e: real, dt: real)
    ensures Predict(Outer(d, e), dt, 0.0, 0.0) == Outer(d + dt * e, e)
  {
    PredictScalar(Outer(d, e), dt, 0.0, 0.0);
    OuterStep(d, e, dt, d + dt * e);
    hide Predict, PhaseStep, CrossStep, FreqStep;
  }

  lemma OuterEntry(u: real, v: real, d: real, k: real, l: real)
    ensures Less(u, k, d) * Less(v, l, d) == Less(Less(u * v, k, d * v), l, Less(u * d, k, d * d))
  {
  }

  lemma OuterReduced(d: real, e: real, k0: real, k1: real)
    ensures Outer(Less(d, k0, d), Less(e, k1, d)) == Reduced(Outer(d, e), k0, k1)
  {
    hide Less;
    OuterEntry(d, d, d, k0, k0);
    OuterEntry(d, e, d, k0, k1);
    OuterEntry(e, d, d, k1, k0);
    OuterEntry(e, e, d, k1, k1);
  }

  /** A correction with gains k0 and k1 does the same, and adds the measurement noise through the gains. */
  lemma CorrectMovesErrors(d: real, e: real, k0: real, k1: real, r: real)
    ensures Joseph(Outer(d, e), Mat(k0, 0.0, k1, 0.0), r) ==
            Outer(d - k0 * d, e - k1 * d).Plus(Outer(k0, k1).Scale(r))
  {
    assert Less(d, k0, d) == d - k0 * d && Less(e, k1, d) == e - k1 * d;
    hide *;
    JosephProducts(Outer(d, e), k0, k1, r);
    OuterReduced(d, e, k0, k1);
  }

  // An estimator that is right stays right.

  /** The estimate is exactly the true phase and rate at a sample. */
  ghost predicate Holds(e: Est, s: Sample, rate: real) {
    !e.filter.status.Reset? && e.lastTime == s.local && e.theta == s.local - s.ref && e.filter.f == rate
  }

  ghost predicate SteadyFrom(samples: seq<Sample>, n: nat, rate: real) {
    forall k | 0 < n <= k < |samples| ::
      samples[k].input == 0 && Steady(samples[k - 1].local, samples[k - 1].ref, samples[k].local, samples[k].ref, rate)
  }

  /** It predicts the measured phase exactly. */
  lemma HoldsPredicts(t: Tuning, e: Est, s: Sample, s': Sample, rate: real)
    requires Holds(e, s, rate) && Steady(s.local, s.ref, s'.local, s'.ref, rate)
    ensures IdealTheta(t, e, s'.local, 0) == s'.local - s'.ref
  {
    hide IdealTheta, Truncates, Gained;
    NoInput(e.filter.f, t.kU);
    PredictedPhase(t, e, s'.local, 0, e.filter.f);
    TruncatesExactly(IdealTheta(t, e, s'.local, 0) - e.theta, (s'.local - s'.ref) - (s.local - s.ref),
                     Gained(s'.local - s.local, rate));
  }

  /** And it converts every local time on the same steady clock to exactly the central time. */
  lemma HoldsConverts(e: Est, s: Sample, rate: real, time: int, central: int)
    requires Holds(e, s, rate) && Steady(s.local, s.ref, time, central, rate)
    ensures IdealCentral(e, time) == central
  {
    hide IdealCentral, Truncates, Gained;
    ConvertedPhase(e, time);
    TruncatesExactly(time - IdealCentral(e, time) - e.theta, (time - central) - (s.local - s.ref),
                     Gained(time - s.local, rate));
  }

  lemma NoErrorIsAccepted(t: Tuning, x: Filter, dt: real)
    requires t.Sane() && x.p.Psd()
    ensures Update(t, x, dt, 0, 0).1.Ok? && !Update(t, x, dt, 0, 0).0.status.Reset? == !x.status.Reset?
    ensures Update(t, x, dt, 0, 0).0.f == x.f && Update(t, x, dt, 0, 0).2 == 0.0
  {
    var prior := Predict(x.p, dt, t.qTheta, t.qF);
    PredictPsd(x.p, dt, t.qTheta, t.qF);
    assert prior.a00 + t.r > 0.0;
    NotAnOutlier(t, prior.a00 + t.r, 0);
    hide Predict, Correct, IsOutlier, Mat.Psd;
  }

  lemma NotAnOutlier(t: Tuning, variance: real, error: int)
    requires variance > 0.0 && error == 0
    ensures !IsOutlier(t, variance, error)
  {
    if t.threshold > 0.0 {
      SquareTimes(t.threshold, variance, t.threshold * t.threshold * variance);
      assert error as real * error as real == 0.0;
    }
  }

  lemma SquareTimes(x: real, k: real, y: real)
    requires x > 0.0 && k > 0.0 && y == x * x * k
    ensures y > 0.0
  {
    var z := x * k;
    assert z > 0.0;
    assert x * z > 0.0;
  }

  lemma HoldsStep(t: Tuning, e: Est, s: Sample, s': Sample, rate: real)
    requires t.Sane() && e.filter.p.Psd() && Holds(e, s, rate) && s'.input == 0
    requires Steady(s.local, s.ref, s'.local, s'.ref, rate)
    ensures var (e', result) := IdealStep(t, e, s'.local, s'.ref, 0);
            Holds(e', s', rate) && result.Ok?
  {
    HoldsPredicts(t, e, s, s', rate);
    NoErrorIsAccepted(t, e.filter, Ticks(s'.local - e.lastTime));
    StepIsUpdate(t, e, s'.local, s'.ref, 0);
    TruncatesTowardsZero(0.0);
    hide IdealStep, Update, IdealTheta, Truncate, Ticks, Mat.Psd;
  }

  /** Over any run, an estimator that holds the true phase and rate of a steady clock accepts every later
      sample and keeps holding them. */
  lemma {:induction false} RunHolds(t: Tuning, samples: seq<Sample>, n: nat, rate: real)
    requires t.Sane() && 0 < n <= |samples| && SteadyFrom(samples, n, rate)
    requires Holds(IdealRun(t, samples[..n]).0, samples[n - 1], rate)
    ensures Holds(IdealRun(t, samples).0, samples[|samples| - 1], rate)
    ensures |IdealRun(t, samples).1| == |samples|
    ensures forall k | n <= k < |samples| :: IdealRun(t, samples).1[k].Ok?
    decreases |samples|
  {
    hide Holds, IdealStep, Steady, Mat.Psd;
    var m := |samples| - 1;
    if n == |samples| {
      assert samples[..n] == samples;
      IdealResults(t, samples);
    } else {
      var before := samples[..m];
      assert before[..n] == samples[..n];
      RunHolds(t, before, n, rate);
      HoldsStep(t, IdealRun(t, before).0, samples[m - 1], samples[m], rate);
    }
  }

  /** So does the device, on words, in range. */
  lemma DeviceHolds(t: Tuning, samples: seq<Sample>, n: nat, rate: real)
    requires t.Sane() && 0 < n <= |samples| && SteadyFrom(samples, n, rate) && RunInRange(t, samples)
    requires Holds(IdealRun(t, samples[..n]).0, samples[n - 1], rate)
    ensures var (e, results) := Run(t, samples);
            var last := samples[|samples| - 1];
            && e.lastTime == Wrap64(last.local) && e.theta == Wrap64(last.local - last.ref) && e.filter.f == rate
            && forall k | n <= k < |samples| :: results[k].Ok?
  {
    hide Run, IdealRun, RunInRange, SteadyFrom, Wrap64;
    RunHolds(t, samples, n, rate);
    RunSimulates(t, samples);
  }

  lemma {:induction false} IdealResults(t: Tuning, samples: seq<Sample>)
    requires t.Sane()
    ensures |IdealRun(t, samples).1| == |samples|
  {
    if samples != [] {
      hide IdealStep;
      IdealResults(t, samples[..|samples| - 1]);
    }
  }

  // Units: the configuration is in seconds, the filter in ticks of a clock of n ticks per second.

  function Up(n: real, x: real): real {
    n * x
  }

  function InTicks(p: Mat, n: real, n2: real): Mat {
    Mat(Up(n2, p.a00), Up(n, p.a01), Up(n, p.a10), p.a11)
  }

  lemma PhaseInTicks(x: real, y: real, y': real, z: real, dt: real, n: real, n2: real, q: real)
    requires n2 == n * n
    ensures PhaseStep(Up(n2, x), Up(n, y), Up(n, y'), z, Up(n, dt), q) == Up(n2, PhaseStep(x, y, y', z, dt, q))
  {
    var w := dt * (dt * q + y + y' + dt * z);
    assert n * dt * (n * dt * q + n * y + n * y' + n * dt * z) == n2 * w;
  }

  lemma CrossInTicks(y: real, z: real, dt: real, n: real)
    ensures CrossStep(Up(n, y), z, Up(n, dt)) == Up(n, CrossStep(y, z, dt))
  {
  }

  lemma FreqInTicks(z: real, dt: real, n: real, n2: real, qF: real)
    requires n2 == n * n && n2 > 0.0
    ensures FreqStep(z, Up(n, dt), qF / n2) == FreqStep(z, dt, qF)
  {
    var q := qF / n2;
    Cancel(qF, n2);
    assert n * dt * (n * dt) * q == dt * dt * (q * n2);
  }

  /** Predicting in ticks is predicting in seconds. */
  lemma PredictInTicks(p: Mat, dt: real, qTheta: real, qF: real, n: real, n2: real)
    requires n2 == n * n && n2 > 0.0
    ensures Predict(InTicks(p, n, n2), Up(n, dt), qTheta, qF / n2) == InTicks(Predict(p, dt, qTheta, qF), n, n2)
  {
    hide Predict, PhaseStep, CrossStep, FreqStep, Up;
    PredictScalar(InTicks(p, n, n2), Up(n, dt), qTheta, qF / n2);
    PredictScalar(p, dt, qTheta, qF);
    PhaseInTicks(p.a00, p.a01, p.a10, p.a11, dt, n, n2, qTheta);
    CrossInTicks(p.a01, p.a11, dt, n);
    CrossInTicks(p.a10, p.a11, dt, n);
    FreqInTicks(p.a11, dt, n, n2, qF);
  }

  lemma DivideBy(x: real, s: real, q: real)
    requires s > 0.0 && q * s == x
    ensures x / s == q
  {
  }

  /** Gains in ticks: the phase gain is the same, the frequency gain 1 / n of it. */
  lemma GainInTicks(x: real, y: real, r: real, n: real, n2: real, k0: real, k1: real)
    requires n2 == n * n && n2 > 0.0 && n > 0.0 && x + r > 0.0
    requires k0 * (x + r) == x && n * k1 * (x + r) == y
    ensures var s := n2 * x + r * n2;
            s > 0.0 && n2 * x / s == k0 && n * y / s == k1
  {
    var s := n2 * x + r * n2;
    assert s == n2 * (x + r);
    StrictProducts(0.0, n2, x + r);
    assert k0 * s == n2 * (k0 * (x + r));
    DivideBy(n2 * x, s, k0);
    assert k1 * s == n * (n * k1 * (x + r));
    DivideBy(n * y, s, k1);
  }

  lemma RatioInTicks(y: real, s: real, n: real, k: real)
    requires n > 0.0 && s > 0.0 && k == y / s / n
    ensures n * k == y / s && n * k * s == y
  {
    Cancel(y, s);
    Cancel(y / s, n);
  }

  lemma EntriesInTicks(y: real, z: real, r: real, rt: real, n: real, n2: real, k0: real, k1: real, kt: real)
    requires n2 == n * n && rt == r * n2 && k1 == n * kt
    ensures rt * k0 == Up(n2, r * k0) && Less(Up(n, y), k0, Up(n, y)) == Up(n, Less(y, k0, y))
    ensures rt * kt == Up(n, r * k1) && Less(z, kt, Up(n, y)) == Less(z, k1, y)
  {
    assert r * n2 * kt == n * (r * (n * kt));
  }

  lemma CorrectedInTicks(y: real, z: real, r: real, rt: real, n: real, n2: real, k0: real, k1: real, kt: real)
    requires n2 == n * n && rt == r * n2 && k1 == n * kt
    ensures Corrected(Up(n, y), z, rt, k0, kt) == InTicks(Corrected(y, z, r, k0, k1), n, n2)
  {
    hide Up, Less;
    EntriesInTicks(y, z, r, rt, n, n2, k0, k1, kt);
  }

  /** The phase gain in ticks is that in seconds, and the frequency gain is per tick. */
  lemma GainsInTicks(p: Mat, r: real, n: real, n2: real)
    requires n > 0.0 && n2 == n * n && n2 > 0.0 && Innovation(p, r) > 0.0
    ensures Innovation(InTicks(p, n, n2), r * n2) > 0.0
    ensures Gain(InTicks(p, n, n2), r * n2).a00 == Gain(p, r).a00
    ensures n * Gain(InTicks(p, n, n2), r * n2).a10 == Gain(p, r).a10
  {
    var s := p.a00 + r;
    var k0, k1 := p.a00 / s, p.a10 / s / n;
    Cancel(p.a00, s);
    RatioInTicks(p.a10, s, n, k1);
    GainInTicks(p.a00, p.a10, r, n, n2, k0, k1);
  }

  /** Correcting in ticks is correcting in seconds. */
  lemma CorrectInTicks(p: Mat, r: real, rt: real, n: real, n2: real)
    requires n > 0.0 && n2 == n * n && n2 > 0.0 && Innovation(p, r) > 0.0 && rt == r * n2
    ensures Innovation(InTicks(p, n, n2), rt) > 0.0
    ensures Correct(InTicks(p, n, n2), rt) == InTicks(Correct(p, r), n, n2)
  {
    hide Correct, Up, Corrected;
    GainsInTicks(p, r, n, n2);
    var q := InTicks(p, n, n2);
    var k0, k1 := Gain(q, rt).a00, Gain(q, rt).a10;
    CorrectWithGain(p, r, Innovation(p, r), k0, n * k1);
    CorrectWithGain(q, rt, Innovation(q, rt), k0, k1);
    CorrectedInTicks(p.a01, p.a11, r, rt, n, n2, k0, n * k1, k1);
  }

  /** The configuration as initialisation scales it makes the filter in ticks that of the configuration in
      seconds, and turns the phase gained in seconds into units of 2^-32 ticks. */
  lemma ScaledIsInTicks(cfg: Config, p: Mat, dt: real, input: int, n: real, n2: real)
    requires cfg.Sane() && Innovation(p, cfg.r) > 0.0 && n == cfg.nominalFreq as real && n2 == n * n
    ensures var t, q := Scaled(cfg), InTicks(p, n, n2);
            && n2 > 0.0 && Innovation(q, t.r) > 0.0
            && Predict(q, Up(n, dt), t.qTheta, t.qF) == InTicks(Predict(p, dt, cfg.qTheta, cfg.qF), n, n2)
            && Correct(q, t.r) == InTicks(Correct(p, cfg.r), n, n2)
            && Up(n, dt) * (input as real * t.kU) == UNITS_PER_TICK * Up(n, dt * (input as real * cfg.kU))
            && t.p0 == cfg.p0 && t.threshold == cfg.outlierThreshold && t.resync == cfg.resyncCount
  {
    SquarePositive(n);
    ScaledFields(cfg, n, n2);
    InputInUnits(cfg, dt, input, n);
    hide Predict, Correct, Up, Scaled;
    PredictInTicks(p, dt, cfg.qTheta, cfg.qF, n, n2);
    CorrectInTicks(p, cfg.r, Scaled(cfg).r, n, n2);
  }

  lemma ScaledFields(cfg: Config, n: real, n2: real)
    requires cfg.Sane() && n == cfg.nominalFreq as real && n2 == n * n && n2 > 0.0
    ensures Scaled(cfg).r == cfg.r * n2 && Scaled(cfg).qF == cfg.qF / n2
    ensures Scaled(cfg).qTheta == cfg.qTheta && Scaled(cfg).p0 == cfg.p0
    ensures Scaled(cfg).threshold == cfg.outlierThreshold && Scaled(cfg).resync == cfg.resyncCount
  {
  }

  lemma InputInUnits(cfg: Config, dt: real, input: int, n: real)
    requires cfg.Sane()
    ensures Up(n, dt) * (input as real * Scaled(cfg).kU) == UNITS_PER_TICK * Up(n, dt * (input as real * cfg.kU))
  {
    var x := input as real * cfg.kU;
    assert input as real * Scaled(cfg).kU == UNITS_PER_TICK * x;
    assert n * dt * (UNITS_PER_TICK * x) == UNITS_PER_TICK * (n * (dt * x));
  }

  // The gains do not depend on the unit of the variances; the outlier test does.

  function Grown(p: Mat, c: real): Mat {
    Mat(Up(c, p.a00), Up(c, p.a01), Up(c, p.a10), Up(c, p.a11))
  }

  lemma StepsGrow(x: real, y: real, y': real, z: real, dt: real, c: real, q: real)
    ensures PhaseStep(Up(c, x), Up(c, y), Up(c, y'), Up(c, z), dt, Up(c, q)) == Up(c, PhaseStep(x, y, y', z, dt, q))
    ensures CrossStep(Up(c, y), Up(c, z), dt) == Up(c, CrossStep(y, z, dt))
    ensures FreqStep(Up(c, z), dt, Up(c, q)) == Up(c, FreqStep(z, dt, q))
  {
    var w := dt * q + y + y' + dt * z;
    assert dt * (dt * (c * q) + c * y + c * y' + dt * (c * z)) == c * (dt * w);
    assert dt * dt * (c * q) == c * (dt * dt * q);
  }

  lemma EntriesGrow(y: real, z: real, r: real, k: real, c: real)
    ensures Up(c, r) * k == Up(c, r * k) && Less(Up(c, z), k, Up(c, y)) == Up(c, Less(z, k, y))
  {
  }

  lemma CorrectedGrows(y: real, z: real, r: real, k0: real, k1: real, c: real)
    ensures Corrected(Up(c, y), Up(c, z), Up(c, r), k0, k1) == Grown(Corrected(y, z, r, k0, k1), c)
  {
    hide Up, Less;
    EntriesGrow(y, y, r, k0, c);
    EntriesGrow(y, z, r, k1, c);
  }

  lemma SameRatio(x: real, s: real, c: real)
    requires s > 0.0 && c > 0.0
    ensures Up(c, s) > 0.0 && Up(c, x) / Up(c, s) == x / s
  {
    var k := x / s;
    Cancel(x, s);
    StrictProducts(0.0, c, s);
    assert k * (c * s) == c * (k * s);
    DivideBy(c * x, c * s, k);
  }

  /** Variances in another unit give the same gains. */
  lemma GainsInAnyUnit(p: Mat, dt: real, qTheta: real, qF: real, r: real, c: real)
    requires c > 0.0 && Innovation(p, r) > 0.0
    ensures Predict(Grown(p, c), dt, Up(c, qTheta), Up(c, qF)) == Grown(Predict(p, dt, qTheta, qF), c)
    ensures Innovation(Grown(p, c), Up(c, r)) == Up(c, Innovation(p, r)) > 0.0
    ensures Gain(Grown(p, c), Up(c, r)) == Gain(p, r)
    ensures Correct(Grown(p, c), Up(c, r)) == Grown(Correct(p, r), c)
  {
    var s := Innovation(p, r);
    assert Up(c, p.a00) + Up(c, r) == Up(c, p.a00 + r);
    hide Predict, Correct, Up, PhaseStep, CrossStep, FreqStep, Corrected;
    PredictScalar(Grown(p, c), dt, Up(c, qTheta), Up(c, qF));
    PredictScalar(p, dt, qTheta, qF);
    StepsGrow(p.a00, p.a01, p.a10, p.a11, dt, c, qTheta);
    StepsGrow(p.a00, p.a10, p.a10, p.a11, dt, c, qF);
    SameRatio(p.a00, s, c);
    SameRatio(p.a10, s, c);
    CorrectWithGain(p, r, s, p.a00 / s, p.a10 / s);
    CorrectWithGain(Grown(p, c), Up(c, r), Up(c, s), p.a00 / s, p.a10 / s);
    CorrectedGrows(p.a01, p.a11, r, p.a00 / s, p.a10 / s, c);
  }

  /** The outlier test measures the innovation in units of 2^-32 ticks, so it takes variances in squares
      of that unit: a variance in square ticks is exceeded 2^32 times too early. */
  lemma OutlierInTicks(t: Tuning, variance: real, error: int, x: real)
    requires t.threshold > 0.0 && x == error as real / UNITS_PER_TICK
    ensures IsOutlier(t, variance, error) <==>
            x * x >= (t.threshold / UNITS_PER_TICK) * (t.threshold / UNITS_PER_TICK) * variance
  {
    var u, h := UNITS_PER_TICK, t.threshold / UNITS_PER_TICK;
    var y, z := h * h * variance, x * x;
    assert error as real == u * x && t.threshold == u * h;
    assert u * x * (u * x) == u * u * z;
    assert u * h * (u * h) * variance == u * u * y;
  }
}
