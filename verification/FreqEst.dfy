/** The clock estimator: a Kalman filter over Q32.32 time that wraps at 2^64, with outlier rejection
    and resynchronisation. Floating point is modelled by exact reals; conversion to an integer
    truncates toward zero. */
module FreqEst {
  import opened Words
  import opened Kalman

  const Q32_ONE: real := 4294967296.0

  datatype Status = Reset | Converging | Converged
  datatype Result = Ok | Init | Outlier | OutlierReset

  datatype Config = Config(nominalFreq: u32, kU: real, qTheta: real, qF: real, r: real, p0: real,
                           outlierThreshold: real, resyncCount: u32)
  {
    /** A clock that runs, and variances that are variances. */
    predicate Sane() {
      nominalFreq > 0 && qTheta >= 0.0 && qF >= 0.0 && r > 0.0 && p0 >= 0.0
    }
  }

  /** The configuration in timer units, as stored by initialisation. */
  datatype Tuning = Tuning(kU: real, qTheta: real, qF: real, r: real, p0: real,
                           threshold: real, resync: u32)
  {
    predicate Sane() {
      qTheta >= 0.0 && qF >= 0.0 && r > 0.0 && p0 >= 0.0
    }
  }

  function Scaled(cfg: Config): Tuning
    requires cfg.Sane()
  {
    var n2 := cfg.nominalFreq as real * cfg.nominalFreq as real;
    Tuning(cfg.kU * Q32_ONE, cfg.qTheta, cfg.qF / n2, cfg.r * n2, cfg.p0,
           cfg.outlierThreshold, cfg.resyncCount)
  }

  lemma ScaledIsSane(cfg: Config)
    requires cfg.Sane()
    ensures Scaled(cfg).Sane()
  {
  }

  /** The part of the state that does not depend on how time is represented. */
  datatype Filter = Filter(status: Status, f: real, p: Mat, outliers: nat)

  /** The state. On the device the times and the phase are words; in the reference they are
      unbounded. */
  datatype Est = Est(lastTime: int, theta: int, filter: Filter)

  const START := Est(0, 0, Filter(Reset, 0.0, Mat(0.0, 0.0, 0.0, 0.0), 0))

  // What the device and the reference share: everything that is not arithmetic on time.

  function Restarted(t: Tuning, x: Filter): Filter {
    Filter(Converging, x.f, Mat(t.p0, 0.0, 0.0, t.p0), 0)
  }

  /** A difference of Q32.32 times in timer ticks. */
  function Ticks(span: int): real {
    span as real / Q32_ONE
  }

  function Scale(n: int, k: real): real {
    n as real * k
  }

  function PhaseGain(dt: real, rate: real): real {
    dt * rate
  }

  function Drift(t: Tuning, x: Filter, dt: real, input: int): real {
    PhaseGain(dt, x.f + Scale(input, t.kU))
  }

  /** Phase gained over a time difference at the estimated frequency error. */
  function Elapsed(x: Filter, span: int): real {
    PhaseGain(Ticks(span), x.f)
  }

  function Propagate(t: Tuning, x: Filter, dt: real, input: int): Filter {
    x.(f := x.f + Scale(input, t.kU), p := Predict(x.p, dt, t.qTheta, t.qF))
  }

  /** |error| / sqrt(variance) >= threshold, for a positive threshold, without the square root. */
  predicate IsOutlier(t: Tuning, variance: real, error: int) {
    t.threshold > 0.0 && error as real * error as real >= t.threshold * t.threshold * variance
  }

  /** The squared test is the test on the Mahalanobis distance |error| / sqrt(variance). */
  lemma OutlierByDistance(t: Tuning, variance: real, error: int, distance: real)
    requires t.threshold > 0.0 && variance > 0.0 && distance >= 0.0
    requires distance * distance * variance == error as real * error as real
    ensures IsOutlier(t, variance, error) <==> distance >= t.threshold
  {
    var d2, t2 := distance * distance, t.threshold * t.threshold;
    if distance >= t.threshold {
      OrderedSquares(t.threshold, distance);
      OrderedProducts(t2, d2, variance);
    } else {
      StrictSquares(distance, t.threshold);
      StrictProducts(d2, t2, variance);
    }
  }

  lemma OrderedSquares(x: real, y: real)
    requires 0.0 <= x <= y
    ensures x * x <= y * y
  {
  }

  lemma StrictSquares(x: real, y: real)
    requires 0.0 <= x < y
    ensures x * x < y * y
  {
    var less, sum := y - x, y + x;
    StrictProducts(0.0, less, sum);
    assert less * sum == y * y - x * x;
  }

  lemma OrderedProducts(x: real, y: real, k: real)
    requires x <= y && k > 0.0
    ensures x * k <= y * k
  {
  }

  lemma StrictProducts(x: real, y: real, k: real)
    requires x < y && k > 0.0
    ensures x * k < y * k
  {
  }

  function Judge(t: Tuning, variance: real, outliers: nat, error: int): Result {
    if !IsOutlier(t, variance, error) then Ok
    else if t.resync > 0 && (outliers + 1) % TWO_32 >= t.resync then OutlierReset
    else Outlier
  }

  /** Takes the measurement into the filter. The last component is the phase correction to apply. */
  function Settle(t: Tuning, x: Filter, error: int): (Filter, Result, real)
    requires Innovation(x.p, t.r) > 0.0
  {
    var kc := Gain(x.p, t.r);
    var counted := x.(outliers := (x.outliers + 1) % TWO_32);
    match Judge(t, Innovation(x.p, t.r), x.outliers, error)
    case Outlier => (counted, Outlier, 0.0)
    case OutlierReset => (counted.(status := Reset), OutlierReset, 0.0)
    case _ =>
      (x.(f := x.f + Scale(error, kc.a10), p := Correct(x.p, t.r),
          outliers := if t.threshold > 0.0 then 0 else x.outliers), Ok, Scale(error, kc.a00))
  }

  /** Predict, then settle, for a time step dt and an innovation that are already known. */
  function Update(t: Tuning, x: Filter, dt: real, input: int, error: int): (Filter, Result, real)
    requires t.Sane() && x.p.Psd()
  {
    PredictPsd(x.p, dt, t.qTheta, t.qF);
    Settle(t, Propagate(t, x, dt, input), error)
  }

  // The device: words.

  /** Conversion of a float increment to an unsigned word truncates its magnitude. */
  function PhaseAdd(theta: u64, inc: real): u64 {
    if inc >= 0.0 then Wrap64(theta + inc.Floor) else Wrap64(theta - (-inc).Floor)
  }

  function PhaseDiff(a: u64, b: u64): int {
    Signed64(Wrap64(a - b))
  }

  predicate WordState(e: Est) {
    0 <= e.lastTime < TWO_64 && 0 <= e.theta < TWO_64
  }

  function Step(t: Tuning, e: Est, local: u64, ref: u64, input: int): (Est, Result)
    requires t.Sane() && e.filter.p.Psd() && WordState(e)
  {
    var z := Wrap64(local - ref);
    if e.filter.status.Reset? then (Est(local, z, Restarted(t, e.filter)), Init)
    else
      var dt := Ticks(Wrap64(local - e.lastTime));
      var theta := PhaseAdd(e.theta, Drift(t, e.filter, dt, input));
      var (x, result, inc) := Update(t, e.filter, dt, input, PhaseDiff(z, theta));
      (Est(local, if result.Ok? then PhaseAdd(theta, inc) else theta, x), result)
  }

  function PredictPhase(e: Est, time: u64): u64
    requires WordState(e)
  {
    PhaseAdd(e.theta, Elapsed(e.filter, PhaseDiff(time, e.lastTime)))
  }

  /** A local time as central time, once the estimator has a phase. */
  function ToCentral(e: Est, time: u64): u64
    requires WordState(e)
  {
    if e.filter.status.Reset? then time else Wrap64(time - PredictPhase(e, time))
  }

  // The reference: unbounded clocks.

  function Truncate(x: real): int {
    if x >= 0.0 then x.Floor else -(-x).Floor
  }

  function IdealTheta(t: Tuning, e: Est, local: int, input: int): int {
    e.theta + Truncate(Drift(t, e.filter, Ticks(local - e.lastTime), input))
  }

  function IdealStep(t: Tuning, e: Est, local: int, ref: int, input: int): (Est, Result)
    requires t.Sane() && e.filter.p.Psd()
  {
    if e.filter.status.Reset? then (Est(local, local - ref, Restarted(t, e.filter)), Init)
    else
      var dt, theta := Ticks(local - e.lastTime), IdealTheta(t, e, local, input);
      var (x, result, inc) := Update(t, e.filter, dt, input, local - ref - theta);
      (Est(local, if result.Ok? then theta + Truncate(inc) else theta, x), result)
  }

  function IdealCentral(e: Est, time: int): int {
    if e.filter.status.Reset? then time
    else time - (e.theta + Truncate(Elapsed(e.filter, time - e.lastTime)))
  }

  /** The same filter, with the times and the phase reduced mod 2^64. */
  ghost predicate Simulates(w: Est, i: Est) {
    w.filter == i.filter && w.lastTime == Wrap64(i.lastTime) && w.theta == Wrap64(i.theta)
  }

  /** A float whose conversion to an unsigned word is defined in C. */
  predicate Convertible(inc: real) {
    -(TWO_64 as real) < inc < TWO_64 as real
  }

  /** The true time step fits in a word, the true innovation in a signed word, and both phase
      increments are convertible. */
  ghost predicate InRange(t: Tuning, e: Est, local: int, ref: int, input: int)
    requires t.Sane() && e.filter.p.Psd()
  {
    e.filter.status.Reset? ||
    var dt, error := Ticks(local - e.lastTime), local - ref - IdealTheta(t, e, local, input);
    && 0 <= local - e.lastTime < TWO_64 && -TWO_63 <= error < TWO_63
    && Convertible(Drift(t, e.filter, dt, input)) && Convertible(Update(t, e.filter, dt, input, error).2)
  }

  lemma PhaseAddWraps(theta: int, inc: real)
    ensures PhaseAdd(Wrap64(theta), inc) == Wrap64(theta + Truncate(inc))
  {
    WrapOfSum64(theta, Truncate(inc));
    hide Wrap64;
  }

  lemma InnovationWraps(local: int, ref: int, theta: int)
    requires -TWO_63 <= local - ref - theta < TWO_63
    ensures PhaseDiff(Wrap64(Wrap64(local) - Wrap64(ref)), Wrap64(theta)) == local - ref - theta
  {
    WrapDifference64(local, ref);
    SignedDifference64(local - ref, theta);
    hide Wrap64;
  }

  /** One update commutes with reduction mod 2^64. */
  lemma StepSimulates(t: Tuning, w: Est, i: Est, local: int, ref: int, input: int)
    requires t.Sane() && i.filter.p.Psd() && Simulates(w, i) && InRange(t, i, local, ref, input)
    ensures var (w', result) := Step(t, w, Wrap64(local), Wrap64(ref), input);
            var (i', result') := IdealStep(t, i, local, ref, input);
            result == result' && Simulates(w', i')
  {
    hide Update, PhaseAdd, Drift, PhaseDiff, Truncate, Mat.Psd, Ticks, Restarted;
    WrapDifference64(local, ref);
    WrapDifference64(local, i.lastTime);
    if !i.filter.status.Reset? {
      var dt, theta := Ticks(local - i.lastTime), IdealTheta(t, i, local, input);
      PhaseAddWraps(i.theta, Drift(t, i.filter, dt, input));
      InnovationWraps(local, ref, theta);
      PhaseAddWraps(theta, Update(t, i.filter, dt, input, local - ref - theta).2);
      hide IdealTheta;
    }
  }

  lemma CentralSimulates(w: Est, i: Est, time: int)
    requires Simulates(w, i) && -TWO_63 <= time - i.lastTime < TWO_63
    requires Convertible(Elapsed(i.filter, time - i.lastTime))
    ensures ToCentral(w, Wrap64(time)) == Wrap64(IdealCentral(i, time))
  {
    hide PhaseAdd, Truncate, Elapsed;
    SignedDifference64(time, i.lastTime);
    var inc := Elapsed(i.filter, time - i.lastTime);
    PhaseAddWraps(i.theta, inc);
    WrapDifference64(time, i.theta + Truncate(inc));
    hide Wrap64, Signed64;
  }

  // Runs.

  datatype Sample = Sample(local: int, ref: int, input: int)

  /** Every update keeps the covariance symmetric and positive semidefinite: predicting never lowers
      its determinant, and an accepted measurement multiplies it by exactly r / (p00 + r) and leaves
      the phase variance below r. */
  lemma StepKeepsCovariance(t: Tuning, x: Filter, dt: real, input: int, error: int)
    requires t.Sane() && x.p.Psd()
    ensures var (y, result, _) := Update(t, x, dt, input, error);
            var prior := Predict(x.p, dt, t.qTheta, t.qF);
            && y.p.Psd() && prior.Psd() && prior.Det() >= x.p.Det()
            && (if result.Ok?
                then y.p.Det() == ShrunkDet(prior, t.r) && y.p.a00 < t.r
                else y.p == prior)
  {
    hide Predict, Correct, Mat.Det, ShrunkDet;
    PredictPsd(x.p, dt, t.qTheta, t.qF);
    CorrectPsd(Predict(x.p, dt, t.qTheta, t.qF), t.r);
  }

  lemma StepKeepsPsd(t: Tuning, e: Est, local: u64, ref: u64, input: int)
    requires t.Sane() && e.filter.p.Psd() && WordState(e)
    ensures Step(t, e, local, ref, input).0.filter.p.Psd() && WordState(Step(t, e, local, ref, input).0)
  {
    RestartPsd(t.p0);
    hide Update, PhaseAdd, PhaseDiff, Drift, Mat.Psd;
    if !e.filter.status.Reset? {
      var dt := Ticks(Wrap64(local - e.lastTime));
      var theta := PhaseAdd(e.theta, Drift(t, e.filter, dt, input));
      StepKeepsCovariance(t, e.filter, dt, input, PhaseDiff(Wrap64(local - ref), theta));
    }
  }

  lemma IdealStepKeepsPsd(t: Tuning, e: Est, local: int, ref: int, input: int)
    requires t.Sane() && e.filter.p.Psd()
    ensures IdealStep(t, e, local, ref, input).0.filter.p.Psd()
  {
    RestartPsd(t.p0);
    hide Update, Drift, Mat.Psd, IdealTheta;
    if !e.filter.status.Reset? {
      var dt := Ticks(local - e.lastTime);
      StepKeepsCovariance(t, e.filter, dt, input, local - ref - IdealTheta(t, e, local, input));
    }
  }

  /** An update initialises exactly when the estimator was reset, and then keeps the frequency. */
  lemma InitIffReset(t: Tuning, e: Est, local: u64, ref: u64, input: int)
    requires t.Sane() && e.filter.p.Psd() && WordState(e)
    ensures var (e', result) := Step(t, e, local, ref, input);
            && (result.Init? <==> e.filter.status.Reset?)
            && (result.Init? ==> e'.filter.f == e.filter.f && e'.theta == Wrap64(local - ref))
            && (result.Init? ==> e'.filter.p == Mat(t.p0, 0.0, 0.0, t.p0) && e'.filter.status == Converging)
  {
  }

  /** Right after an update the converted local time is the local time less the phase; right after an
      initialisation that is exactly the reference time. */
  lemma ConvertedAtUpdate(t: Tuning, e: Est, local: u64, ref: u64, input: int)
    requires t.Sane() && e.filter.p.Psd() && WordState(e)
    ensures var (e', result) := Step(t, e, local, ref, input);
            && WordState(e')
            && (!e'.filter.status.Reset? ==> ToCentral(e', local) == Wrap64(local - e'.theta))
            && (result.Init? ==> ToCentral(e', local) == ref)
  {
    StepKeepsPsd(t, e, local, ref, input);
    InitIffReset(t, e, local, ref, input);
    StepSetsTime(t, e, local, ref, input);
    var e' := Step(t, e, local, ref, input).0;
    NoTimeNoPhase(e');
    BackToRef(local, ref);
    if e.filter.status.Reset? {
      StatusAfterInit(t, e, local, ref, input);
    }
    hide Step, PhaseAdd, Elapsed, PhaseDiff, Mat.Psd, PredictPhase;
  }

  lemma StepSetsTime(t: Tuning, e: Est, local: u64, ref: u64, input: int)
    requires t.Sane() && e.filter.p.Psd() && WordState(e)
    ensures Step(t, e, local, ref, input).0.lastTime == local
  {
    hide Update, PhaseAdd, PhaseDiff, Drift, Mat.Psd;
  }

  lemma StatusAfterInit(t: Tuning, e: Est, local: u64, ref: u64, input: int)
    requires t.Sane() && e.filter.p.Psd() && WordState(e) && Step(t, e, local, ref, input).1.Init?
    ensures !Step(t, e, local, ref, input).0.filter.status.Reset?
  {
    InitIffReset(t, e, local, ref, input);
    hide Update, PhaseAdd, PhaseDiff, Drift, Mat.Psd;
  }

  lemma BackToRef(local: u64, ref: u64)
    ensures Wrap64(local - Wrap64(local - ref)) == ref
  {
  }

  lemma NoTimeNoPhase(e: Est)
    requires WordState(e)
    ensures PredictPhase(e, e.lastTime) == e.theta
  {
    assert PhaseDiff(e.lastTime, e.lastTime) == 0;
    NoTimeNoGain(e.filter);
    assert PhaseAdd(e.theta, 0.0) == e.theta;
    hide PhaseDiff, Elapsed, PhaseAdd;
  }

  lemma NoTimeNoGain(x: Filter)
    ensures Elapsed(x, 0) == 0.0
  {
    assert Ticks(0) == 0.0;
  }

  /** The phase an outlier leaves is the one that predicting for the same time answers. */
  lemma PredictAgrees(t: Tuning, e: Est, local: u64, ref: u64)
    requires t.Sane() && e.filter.p.Psd() && WordState(e) && Wrap64(local - e.lastTime) < TWO_63
    ensures var (e', result) := Step(t, e, local, ref, 0);
            result.Outlier? || result.OutlierReset? ==> e'.theta == PredictPhase(e, local)
  {
    var dt := Ticks(Wrap64(local - e.lastTime));
    assert Drift(t, e.filter, dt, 0) == Elapsed(e.filter, PhaseDiff(local, e.lastTime));
    hide Predict, Correct, PhaseAdd, PhaseDiff, Drift, Elapsed, Mat.Psd, IsOutlier, Gain;
  }

  /** An accepted measurement leaves r / (p00 + r) of the innovation, up to truncation. */
  lemma AcceptedResidual(t: Tuning, e: Est, local: int, ref: int, input: int)
    requires t.Sane() && e.filter.p.Psd() && IdealStep(t, e, local, ref, input).1.Ok?
    ensures var prior := Predict(e.filter.p, Ticks(local - e.lastTime), t.qTheta, t.qF);
            var error := local - ref - IdealTheta(t, e, local, input);
            var residual := local - ref - IdealStep(t, e, local, ref, input).0.theta;
            && Innovation(prior, t.r) > 0.0
            && -1.0 < residual as real - Scale(error, t.r / Innovation(prior, t.r)) < 1.0
  {
    var dt, theta := Ticks(local - e.lastTime), IdealTheta(t, e, local, input);
    var prior, error := Predict(e.filter.p, dt, t.qTheta, t.qF), local - ref - theta;
    AcceptedCorrection(t, e.filter, dt, input, error);
    Shrunk(error, prior.a00, t.r, Innovation(prior, t.r));
    hide Predict, Update, Innovation, IdealTheta, Ticks, Truncate, Scale, Mat.Psd;
    assert IdealStep(t, e, local, ref, input).0.theta == theta + Truncate(Update(t, e.filter, dt, input, error).2);
  }

  lemma AcceptedCorrection(t: Tuning, x: Filter, dt: real, input: int, error: int)
    requires t.Sane() && x.p.Psd() && !Update(t, x, dt, input, error).1.Outlier? && !Update(t, x, dt, input, error).1.OutlierReset?
    ensures var prior := Predict(x.p, dt, t.qTheta, t.qF);
            && Innovation(prior, t.r) > 0.0
            && Update(t, x, dt, input, error).2 == Scale(error, prior.a00 / Innovation(prior, t.r))
  {
    PredictPsd(x.p, dt, t.qTheta, t.qF);
    assert Predict(x.p, dt, t.qTheta, t.qF).a00 >= 0.0;
    hide Predict, Correct, IsOutlier, Scale, Mat.Psd;
  }

  lemma Shrunk(error: int, p00: real, r: real, s: real)
    requires s == p00 + r && s != 0.0
    ensures -1.0 < (error - Truncate(Scale(error, p00 / s))) as real - Scale(error, r / s) < 1.0
  {
    var x := Scale(error, p00 / s);
    assert p00 / s + r / s == 1.0;
    assert error as real - x == Scale(error, r / s);
  }

  lemma RestartPsd(p0: real)
    requires p0 >= 0.0
    ensures Mat(p0, 0.0, 0.0, p0).Psd()
  {
  }

  /** The state after a run from start-up, and the results returned on the way. */
  function Run(t: Tuning, samples: seq<Sample>): (r: (Est, seq<Result>))
    requires t.Sane()
    ensures r.0.filter.p.Psd() && WordState(r.0) && |r.1| == |samples|
  {
    if samples == [] then (START, [])
    else
      var n := |samples| - 1;
      var (e, results) := Run(t, samples[..n]);
      var local, ref := Wrap64(samples[n].local), Wrap64(samples[n].ref);
      StepKeepsPsd(t, e, local, ref, samples[n].input);
      var (e', result) := Step(t, e, local, ref, samples[n].input);
      (e', results + [result])
  }

  function IdealRun(t: Tuning, samples: seq<Sample>): (r: (Est, seq<Result>))
    requires t.Sane()
    ensures r.0.filter.p.Psd()
  {
    if samples == [] then (START, [])
    else
      var n := |samples| - 1;
      var (e, results) := IdealRun(t, samples[..n]);
      IdealStepKeepsPsd(t, e, samples[n].local, samples[n].ref, samples[n].input);
      var (e', result) := IdealStep(t, e, samples[n].local, samples[n].ref, samples[n].input);
      (e', results + [result])
  }

  /** Every step of the unbounded run is in range. */
  ghost predicate RunInRange(t: Tuning, samples: seq<Sample>)
    requires t.Sane()
  {
    samples == [] ||
    var n := |samples| - 1;
    && RunInRange(t, samples[..n])
    && InRange(t, IdealRun(t, samples[..n]).0, samples[n].local, samples[n].ref, samples[n].input)
  }

  /** Over any run in range, wrap-around is invisible: the device returns the same results and holds
      the same filter as an estimator with unbounded clocks, and the same times mod 2^64. */
  lemma {:induction false} RunSimulates(t: Tuning, samples: seq<Sample>)
    requires t.Sane() && RunInRange(t, samples)
    ensures Run(t, samples).1 == IdealRun(t, samples).1
    ensures Simulates(Run(t, samples).0, IdealRun(t, samples).0)
  {
    if samples != [] {
      hide Step, IdealStep, InRange, Simulates, Mat.Psd;
      var n := |samples| - 1;
      RunSimulates(t, samples[..n]);
      StepSimulates(t, Run(t, samples[..n]).0, IdealRun(t, samples[..n]).0,
                    samples[n].local, samples[n].ref, samples[n].input);
    }
  }

  // The outlier and resynchronisation machine.

  /** Consecutive outliers at the end of a run of results. */
  function Streak(results: seq<Result>): nat {
    if results == [] || results[|results| - 1] != Outlier then 0
    else 1 + Streak(results[..|results| - 1])
  }

  ghost predicate Counted(t: Tuning, x: Filter, results: seq<Result>) {
    && (x.status.Reset? <==> results == [] || results[|results| - 1] == OutlierReset)
    && (!x.status.Reset? ==> x.outliers == Streak(results) < t.resync)
  }

  /** What the k-th result of a run says about the results before it. */
  ghost predicate Explained(t: Tuning, results: seq<Result>, k: nat)
    requires k < |results|
  {
    var before := results[..k];
    && (results[k] == Init <==> k == 0 || results[k - 1] == OutlierReset)
    && (results[k] == OutlierReset ==> Streak(before) + 1 == t.resync)
    && (results[k] == Outlier ==> Streak(before) + 1 < t.resync)
  }

  /** Outside RESET a measurement is accepted if and only if its innovation, on the circle of phases,
      is no outlier for the predicted covariance. */
  predicate Judged(t: Tuning, e: Est, local: u64, ref: u64, input: int, result: Result)
    requires WordState(e)
  {
    e.filter.status.Reset? ||
    var dt := Ticks(Wrap64(local - e.lastTime));
    var error := PhaseDiff(Wrap64(local - ref), PhaseAdd(e.theta, Drift(t, e.filter, dt, input)));
    result.Ok? <==> !IsOutlier(t, Innovation(Predict(e.filter.p, dt, t.qTheta, t.qF), t.r), error)
  }

  predicate JudgedAt(t: Tuning, samples: seq<Sample>, k: nat, result: Result)
    requires t.Sane() && k < |samples|
  {
    Judged(t, Run(t, samples[..k]).0, Wrap64(samples[k].local), Wrap64(samples[k].ref), samples[k].input, result)
  }

  lemma StepCounts(t: Tuning, e: Est, local: u64, ref: u64, input: int, results: seq<Result>)
    requires t.Sane() && e.filter.p.Psd() && WordState(e)
    requires t.threshold > 0.0 && t.resync > 0 && Counted(t, e.filter, results)
    ensures var (e', result) := Step(t, e, local, ref, input);
            && Counted(t, e'.filter, results + [result])
            && Explained(t, results + [result], |results|)
            && Judged(t, e, local, ref, input, result)
            && (result == Init ==> e'.filter.f == e.filter.f)
  {
    hide Predict, Correct, PhaseAdd, PhaseDiff, Drift, Mat.Psd, IsOutlier, Gain;
    var (e', result) := Step(t, e, local, ref, input);
    var after := results + [result];
    assert after[..|results|] == results && after[|results|] == result;
    if !e.filter.status.Reset? {
      assert e.filter.outliers + 1 < TWO_32;
    }
  }

  /** With outlier detection and resynchronisation on, over any run: INIT is returned exactly on the
      first call and right after each OUTLIER_RESET; OUTLIER_RESET exactly at the resync-count-th
      consecutive outlier; the counter stays below the resync count; and every other result is OK
      exactly when the measurement is no outlier for the state it meets. */
  lemma {:induction false} RunCounts(t: Tuning, samples: seq<Sample>)
    requires t.Sane() && t.threshold > 0.0 && t.resync > 0
    ensures Counted(t, Run(t, samples).0.filter, Run(t, samples).1)
    ensures forall k | 0 <= k < |samples| ::
              Explained(t, Run(t, samples).1, k) && JudgedAt(t, samples, k, Run(t, samples).1[k])
  {
    if samples != [] {
      hide Step, Mat.Psd, Counted, Judged, JudgedAt, Explained;
      var n := |samples| - 1;
      var (e, results) := Run(t, samples[..n]);
      RunCounts(t, samples[..n]);
      StepCounts(t, e, Wrap64(samples[n].local), Wrap64(samples[n].ref), samples[n].input, results);
      JudgedLast(t, samples, Run(t, samples).1[n]);
      forall k | 0 <= k < n
        ensures Explained(t, Run(t, samples).1, k) && JudgedAt(t, samples, k, Run(t, samples).1[k])
      {
        StillExplained(t, results, Run(t, samples).1[n], k);
        StillJudged(t, samples, n, k, results[k]);
      }
    }
  }

  lemma StillExplained(t: Tuning, results: seq<Result>, result: Result, k: nat)
    requires k < |results| && Explained(t, results, k)
    ensures Explained(t, results + [result], k)
  {
    assert (results + [result])[..k] == results[..k];
    hide Streak;
  }

  lemma StillJudged(t: Tuning, samples: seq<Sample>, n: nat, k: nat, result: Result)
    requires t.Sane() && k < n <= |samples| && JudgedAt(t, samples[..n], k, result)
    ensures JudgedAt(t, samples, k, result)
  {
    assert samples[..n][..k] == samples[..k];
    hide Run, Judged;
  }

  lemma JudgedLast(t: Tuning, samples: seq<Sample>, result: Result)
    requires t.Sane() && samples != []
    ensures var n := |samples| - 1;
            JudgedAt(t, samples, n, result) <==>
            Judged(t, Run(t, samples[..n]).0, Wrap64(samples[n].local), Wrap64(samples[n].ref), samples[n].input, result)
  {
    hide Run, Judged;
  }

  // The estimator as the device runs it.

  class FreqEst {
    const cfg: Config
    const tuning: Tuning
    var status: Status
    var lastTime: u64
    var theta: u64
    var f: real
    var p00: real
    var p01: real
    var p10: real
    var p11: real
    var outlierCount: u32

    function State(): Est
      reads this
    {
      Est(lastTime, theta, Filter(status, f, Mat(p00, p01, p10, p11), outlierCount))
    }

    ghost predicate Valid()
      reads this
    {
      cfg.Sane() && tuning == Scaled(cfg) && tuning.Sane() && State().filter.p.Psd()
    }

    constructor (cfg: Config)
      requires cfg.Sane()
      ensures Valid() && this.cfg == cfg && State() == START
    {
      ScaledIsSane(cfg);
      this.cfg, tuning := cfg, Scaled(cfg);
      status, lastTime, theta, f, outlierCount := Reset, 0, 0, 0.0, 0;
      p00, p01, p10, p11 := 0.0, 0.0, 0.0, 0.0;
    }

    method Predict(time: u64) returns (phase: u64)
      requires Valid()
      ensures phase == PredictPhase(State(), time)
    {
      hide Mat.Psd, PhaseAdd, PhaseDiff, Config.Sane, Scaled, Tuning.Sane;
      var dt := Ticks(PhaseDiff(time, lastTime));
      phase := PhaseAdd(theta, PhaseGain(dt, f));
    }

    method PredictState(dt: real, input: int)
      modifies `theta, `f
      ensures theta == PhaseAdd(old(theta), Drift(tuning, old(State().filter), dt, input))
      ensures f == old(f) + Scale(input, tuning.kU)
    {
      hide PhaseAdd, PhaseGain, Scale;
      var scaledInput := Scale(input, tuning.kU);
      theta := PhaseAdd(theta, PhaseGain(dt, f + scaledInput));
      f := f + scaledInput;
    }

    method CorrectState(thetaError: int, k0: real, k1: real)
      modifies `theta, `f
      ensures theta == PhaseAdd(old(theta), Scale(thetaError, k0))
      ensures f == old(f) + Scale(thetaError, k1)
    {
      hide PhaseAdd;
      theta := PhaseAdd(theta, k0 * thetaError as real);
      f := f + k1 * thetaError as real;
    }

    /** The hand-expanded prediction computes A P A' + dt^2 Q. */
    method PredictCovariance(dt: real)
      modifies `p00, `p01, `p10, `p11
      ensures Mat(p00, p01, p10, p11) ==
              Kalman.Predict(old(Mat(p00, p01, p10, p11)), dt, tuning.qTheta, tuning.qF)
    {
      ghost var p := Mat(p00, p01, p10, p11);
      var dtP11 := dt * p11;
      p00 := p00 + dt * (dt * tuning.qTheta + p01 + p10 + dtP11);
      p01 := p01 + dtP11;
      p10 := p10 + dtP11;
      p11 := p11 + dt * dt * tuning.qF;
      PredictScalar(p, dt, tuning.qTheta, tuning.qF);
      hide Kalman.Predict;
    }

    /** The order of the four assignments matters: each reads only values from before the block. */
    method CorrectCovariance(p00r: real, k0: real, k1: real)
      requires p00r == p00 + tuning.r > 0.0 && k0 == p00 / p00r && k1 == p10 / p00r
      modifies `p00, `p01, `p10, `p11
      ensures Mat(p00, p01, p10, p11) == Correct(old(Mat(p00, p01, p10, p11)), tuning.r)
    {
      hide Correct, Weighted, FreqDown, CrossDown;
      CorrectScalar(Mat(p00, p01, p10, p11), tuning.r);
      WeightedGain(tuning.r, p00, p00r, k0);
      WeightedGain(tuning.r, p10, p00r, k1);
      p11 := FreqDown(p11, p01, p10, p00r);
      p01 := CrossDown(tuning.r, p01, p00r);
      p00 := tuning.r * k0;
      p10 := tuning.r * k1;
    }

    /** The optional outlier detection: counts an outlier, or asks for a reset, or clears the count. */
    method Detect(thetaError: int, p00r: real) returns (result: Result)
      requires tuning.threshold > 0.0
      modifies `status, `outlierCount
      ensures result == Judge(tuning, p00r, old(outlierCount), thetaError)
      ensures outlierCount == if result.Ok? then 0 else (old(outlierCount) + 1) % TWO_32
      ensures status == if result.OutlierReset? then Reset else old(status)
    {
      var distant := thetaError as real * thetaError as real >= tuning.threshold * tuning.threshold * p00r;
      assert distant == IsOutlier(tuning, p00r, thetaError);
      hide IsOutlier;
      if distant {
        outlierCount := Wrap32(outlierCount + 1);
        if tuning.resync > 0 && outlierCount >= tuning.resync {
          status := Reset;
          return OutlierReset;
        } else {
          return Outlier;
        }
      } else {
        outlierCount := 0;
        return Ok;
      }
    }

    /** Takes a measurement into the predicted state. */
    method Measure(thetaError: int) returns (result: Result)
      requires tuning.Sane() && State().filter.p.Psd()
      modifies `theta, `f, `p00, `p01, `p10, `p11, `status, `outlierCount
      ensures var (x, r, inc) := Settle(tuning, old(State().filter), thetaError);
              && State().filter == x && result == r
              && theta == if r.Ok? then PhaseAdd(old(theta), inc) else old(theta)
    {
      PsdVariance(Mat(p00, p01, p10, p11));
      hide Mat.Psd, PhaseAdd, Correct, IsOutlier, Scale;
      var p00r := p00 + tuning.r;
      var k0 := p00 / p00r;
      var k1 := p10 / p00r;

      if tuning.threshold > 0.0 {
        result := Detect(thetaError, p00r);
        if result != Ok {
          return;
        }
      }

      CorrectState(thetaError, k0, k1);
      CorrectCovariance(p00r, k0, k1);
      return Ok;
    }

    /** The hand-expanded update computes the matrix filter. */
    method Update(localTime: u64, refTime: u64, input: int) returns (result: Result)
      requires Valid() && -TWO_15 <= input < TWO_15
      modifies this
      ensures Valid()
      ensures (State(), result) == Step(tuning, old(State()), localTime, refTime, input)
    {
      StepKeepsPsd(tuning, State(), localTime, refTime, input);
      hide Mat.Psd, PhaseAdd, PhaseDiff, Ticks, Config.Sane, Scaled, Kalman.Predict, Settle, Scale, Drift;
      var z := Wrap64(localTime - refTime);

      if status.Reset? {
        status := Converging;
        lastTime := localTime;
        theta := z;
        p00, p01, p10, p11 := tuning.p0, 0.0, 0.0, tuning.p0;
        outlierCount := 0;
        return Init;
      }

      var dt := Ticks(Wrap64(localTime - lastTime));
      lastTime := localTime;

      PredictPsd(Mat(p00, p01, p10, p11), dt, tuning.qTheta, tuning.qF);
      PredictState(dt, input);
      PredictCovariance(dt);
      var thetaError := PhaseDiff(z, theta);
      result := Measure(thetaError);
    }
  }

  lemma PsdVariance(p: Mat)
    requires p.Psd()
    ensures p.a00 >= 0.0
  {
  }
}
