/** The composite score of a session, over the reals. */
module CompositeScore {
  import opened Scoring

  function RMin(a: real, b: real): real { if a < b then a else b }
  function RMax(a: real, b: real): real { if a > b then a else b }

  function NormalizeLinear(v: real, min: real, max: real): real {
    if max == min then 0.0 else RMin(100.0, RMax(0.0, (v - min) / (max - min) * 100.0))
  }

  const BEST_NS := 1_000.0
  const WORST_NS := 100_000_000.0

  ghost predicate Increasing(log: real -> real) { forall x, y :: 0.0 < x < y ==> log(x) < log(y) }

  /** `log` stands for the decimal logarithm. */
  function NormalizeTailLatency(p99: real, log: real -> real): real
    requires log(BEST_NS) < log(WORST_NS)
  {
    if p99 <= 0.0 then 0.0
    else
      var score := 100.0 * (1.0 - (log(p99) - log(BEST_NS)) / (log(WORST_NS) - log(BEST_NS)));
      RMin(100.0, RMax(0.0, score))
  }

  function NormalizeResilience(recoveryMs: real, degradation: real): real {
    if recoveryMs == 0.0 then 85.0
    else
      var recoveryScore := 100.0 - NormalizeLinear(recoveryMs, 0.0, 5000.0);
      var degradScore := RMax(0.0, 100.0 - RMax(0.0, degradation - 1.0) * 50.0);
      (recoveryScore + degradScore) / 2.0
  }

  /** math.Round of a number that is not negative. */
  function Round(x: real): int { (x + 0.5).Floor }

  datatype Score = Score(throughput: real, tailLatency: real, correctness: real, resilience: real,
                         total: real, reportedViolations: int)

  function FillAccuracy(s: Session): real {
    if s.totalFills > 0 then s.correctFills as real / s.totalFills as real else 0.0
  }

  function ViolationRate(s: Session, violations: int): real {
    if s.totalFills > 0 then RMin(1.0, violations as real / s.totalFills as real) else 0.0
  }

  /** Fill accuracy, scaled down by at most half for the violation rate. */
  function Correctness(s: Session, violations: int): real {
    FillAccuracy(s) * 100.0 * (1.0 - ViolationRate(s, violations) * 0.5)
  }

  /** A chaos run was measured from start to end, on a baseline. */
  predicate Measured(s: Session) { s.chaosEndNs > 0 && s.baselineP99Ns > 0.0 }

  function Degradation(s: Session): real {
    if Measured(s) then s.chaosP99Ns / s.baselineP99Ns else 1.0
  }

  function RecoveryMs(s: Session): real {
    if Measured(s) then (s.chaosEndNs - s.chaosStartNs) as real / 1_000_000.0 else 0.0
  }

  /** Compute for a session: `violations` comes from its validator, `elapsed` from the clock,
      p99 from its histograms. */
  function Compute(s: Session, violations: int, elapsed: real, p99: real, log: real -> real): Score
    requires log(BEST_NS) < log(WORST_NS)
  {
    var tps := if elapsed > 0.0 then s.orderCount as real / elapsed else 0.0;
    var throughput := NormalizeLinear(tps, 0.0, 50000.0);
    var tail := NormalizeTailLatency(p99, log);
    var correctness := Correctness(s, violations);
    var resilience := NormalizeResilience(RecoveryMs(s), Degradation(s));
    Score(throughput, tail, correctness, resilience,
          0.30 * throughput + 0.30 * tail + 0.25 * correctness + 0.15 * resilience,
          Round(ViolationRate(s, violations) * s.totalFills as real))
  }

  // ---------------------------------------------------------------- counters

  ghost function Sum(counts: map<string, int>): int
    decreases |counts|
  {
    if counts == map[] then 0
    else
      var k :| k in counts;
      counts[k] + Sum(counts - {k})
  }

  lemma {:induction false} SumWithout(counts: map<string, int>, k: string)
    requires k in counts
    ensures Sum(counts) == counts[k] + Sum(counts - {k})
    decreases |counts|
  {
    var j :| j in counts && Sum(counts) == counts[j] + Sum(counts - {j});
    if j != k {
      SumWithout(counts - {j}, k);
      SumWithout(counts - {k}, j);
      assert counts - {j} - {k} == counts - {k} - {j};
    }
  }

  lemma SumBumped(counts: map<string, int>, k: string)
    ensures Sum(Bumped(counts, k)) == Sum(counts) + 1
  {
    var b := Bumped(counts, k);
    SumWithout(b, k);
    assert b - {k} == counts - {k};
    if k in counts { SumWithout(counts, k); } else { assert counts - {k} == counts; }
  }

  /** Correct fills, fills and orders are in order, and the archetype counts never add up to
      more than the orders. */
  ghost predicate CountersOk(s: Session) {
    && 0 <= s.correctFills <= s.totalFills <= s.orderCount
    && Sum(s.archetypeCounts) <= s.orderCount
    && s.chaosP99Ns >= 0.0 && s.baselineP99Ns >= 0.0
  }

  // ---------------------------------------------------------------- ranges

  predicate InRange(x: real) { 0.0 <= x <= 100.0 }

  lemma RatioInRange(a: int, b: int)
    requires 0 <= a <= b && b > 0
    ensures 0.0 <= a as real / b as real <= 1.0
  {
    var q := a as real / b as real;
    assert q * b as real == a as real;
  }

  lemma Quotient(a: real, b: real)
    requires b > 0.0
    ensures a / b <= 0.0 <==> a <= 0.0
    ensures a / b >= 1.0 <==> a >= b
  {
    var q := a / b;
    assert q * b == a;
    if q > 0.0 { assert q * b > 0.0; } else { assert -q * b >= 0.0; }
    if q >= 1.0 { assert (q - 1.0) * b >= 0.0; } else { assert (1.0 - q) * b > 0.0; }
  }

  lemma NonNegative(a: real, b: real)
    requires a >= 0.0 && b >= 0.0
    ensures a * b >= 0.0
  {
  }

  lemma ProductInRange(x: real, y: real)
    requires 0.0 <= x <= 1.0 && 0.0 <= y <= 1.0
    ensures InRange(x * 100.0 * y)
  {
    NonNegative(x, y);
    NonNegative(1.0 - x, y);
    assert (1.0 - x) * y == y - x * y;
    assert x * 100.0 * y == 100.0 * (x * y);
  }

  /** The validator's violations enter the score capped by the number of fills, and are
      reported back as exactly that number. */
  lemma ReportedViolations(s: Session, violations: int)
    requires violations >= 0 && s.totalFills >= 0
    ensures 0.0 <= ViolationRate(s, violations) <= 1.0
    ensures Round(ViolationRate(s, violations) * s.totalFills as real)
         == if violations < s.totalFills then violations else s.totalFills
  {
    if s.totalFills > 0 {
      var q := violations as real / s.totalFills as real;
      Quotient(violations as real, s.totalFills as real);
      assert q * s.totalFills as real == violations as real;
    }
  }

  lemma CorrectnessInRange(s: Session, violations: int)
    requires CountersOk(s) && violations >= 0
    ensures InRange(Correctness(s, violations))
  {
    ReportedViolations(s, violations);
    if s.totalFills > 0 { RatioInRange(s.correctFills, s.totalFills); }
    ProductInRange(FillAccuracy(s), 1.0 - ViolationRate(s, violations) * 0.5);
  }

  /** Full correctness takes fills that are all correct and no violation; violations alone cost
      at most half of it, so the score is zero only when no fill was correct. */
  lemma CorrectnessEnds(s: Session, violations: int)
    requires CountersOk(s) && violations >= 0
    ensures Correctness(s, violations) == 100.0 <==> 0 < s.totalFills == s.correctFills && violations == 0
    ensures Correctness(s, violations) == 0.0 <==> s.correctFills == 0
  {
    if s.totalFills > 0 {
      ReportedViolations(s, violations);
      NoRateIff(s, violations);
      AccuracyEnds(s);
      FullProduct(FillAccuracy(s), 1.0 - ViolationRate(s, violations) * 0.5);
    }
  }

  lemma AccuracyEnds(s: Session)
    requires CountersOk(s) && s.totalFills > 0
    ensures 0.0 <= FillAccuracy(s) <= 1.0
    ensures FillAccuracy(s) == 1.0 <==> s.correctFills == s.totalFills
    ensures FillAccuracy(s) == 0.0 <==> s.correctFills == 0
  {
    RatioInRange(s.correctFills, s.totalFills);
    Quotient(s.correctFills as real, s.totalFills as real);
  }

  lemma NoRateIff(s: Session, violations: int)
    requires violations >= 0 && s.totalFills > 0
    ensures ViolationRate(s, violations) == 0.0 <==> violations == 0
  {
    Quotient(violations as real, s.totalFills as real);
    ReportedViolations(s, violations);
  }

  lemma FullProduct(a: real, f: real)
    requires 0.0 <= a <= 1.0 && 0.5 <= f <= 1.0
    ensures a * 100.0 * f == 100.0 <==> a == 1.0 && f == 1.0
    ensures a * 100.0 * f == 0.0 <==> a == 0.0
  {
    assert a * 100.0 * f == 100.0 * (a * f);
    NonNegative(a, f - 0.5);
    assert a * f >= a * 0.5;
    NonNegative(1.0 - a, f);
    assert (1.0 - a) * f == f - a * f;
    if a < 1.0 || f < 1.0 { NotFull(a, f); }
  }

  lemma NotFull(a: real, f: real)
    requires 0.0 <= a <= 1.0 && 0.5 <= f <= 1.0 && (a < 1.0 || f < 1.0)
    ensures a * f < 1.0
  {
    var p := a * f;
    if a < 1.0 {
      assert (1.0 - a) * f > 0.0;
      assert (1.0 - a) * f == f - p;
    } else {
      assert p == f;
    }
  }

  lemma ResilienceInRange(recoveryMs: real, degradation: real)
    ensures InRange(NormalizeResilience(recoveryMs, degradation))
  {
  }

  lemma WeightedInRange(a: real, b: real, c: real, d: real)
    requires InRange(a) && InRange(b) && InRange(c) && InRange(d)
    ensures InRange(0.30 * a + 0.30 * b + 0.25 * c + 0.15 * d)
  {
  }

  ghost predicate AllInRange(c: Score) {
    InRange(c.throughput) && InRange(c.tailLatency) && InRange(c.correctness) && InRange(c.resilience)
    && InRange(c.total)
  }

  lemma ComputeInRange(s: Session, violations: int, elapsed: real, p99: real, log: real -> real)
    requires CountersOk(s) && violations >= 0 && log(BEST_NS) < log(WORST_NS)
    ensures AllInRange(Compute(s, violations, elapsed, p99, log))
  {
    var c := Compute(s, violations, elapsed, p99, log);
    CorrectnessInRange(s, violations);
    ResilienceInRange(RecoveryMs(s), Degradation(s));
    WeightedInRange(c.throughput, c.tailLatency, c.correctness, c.resilience);
  }

  /** The tail-latency score is 100 exactly at a measured p99 of at most 1 microsecond, and 0
      exactly at 100 ms or more, or when nothing was measured. */
  lemma TailLatencyEnds(p99: real, log: real -> real)
    requires Increasing(log)
    ensures log(BEST_NS) < log(WORST_NS)
    ensures NormalizeTailLatency(p99, log) == 100.0 <==> 0.0 < p99 <= BEST_NS
    ensures NormalizeTailLatency(p99, log) == 0.0 <==> p99 <= 0.0 || p99 >= WORST_NS
  {
    if p99 > 0.0 {
      Quotient(log(p99) - log(BEST_NS), log(WORST_NS) - log(BEST_NS));
    }
  }

  /** A full resilience score takes a recovery time below zero: the comment on the function
      promises 100 for every recovery under 100 ms with degradation under 1.5, where the score
      in fact lies strictly between 86.5 and 100. */
  lemma FullResilienceIff(recoveryMs: real, degradation: real)
    ensures NormalizeResilience(recoveryMs, degradation) == 100.0 <==> recoveryMs < 0.0 && degradation <= 1.0
    ensures 0.0 < recoveryMs < 100.0 && degradation < 1.5 ==>
              86.5 < NormalizeResilience(recoveryMs, degradation) < 100.0
  {
  }

  // ---------------------------------------------------------------- what each part is worth

  /** What a point of each component is worth in the total, and where the total starts and
      ends. */
  lemma PartsAreWorth(s: Session, v: int, e: real, p: real, s': Session, v': int, e': real, p': real, log: real -> real)
    returns (c: Score, d: Score)
    requires log(BEST_NS) < log(WORST_NS)
    ensures c == Compute(s, v, e, p, log) && d == Compute(s', v', e', p', log)
    ensures d.tailLatency == c.tailLatency && d.correctness == c.correctness && d.resilience == c.resilience ==>
              d.total - c.total == 0.30 * (d.throughput - c.throughput)
    ensures d.throughput == c.throughput && d.correctness == c.correctness && d.resilience == c.resilience ==>
              d.total - c.total == 0.30 * (d.tailLatency - c.tailLatency)
    ensures d.throughput == c.throughput && d.tailLatency == c.tailLatency && d.resilience == c.resilience ==>
              d.total - c.total == 0.25 * (d.correctness - c.correctness)
    ensures d.throughput == c.throughput && d.tailLatency == c.tailLatency && d.correctness == c.correctness ==>
              d.total - c.total == 0.15 * (d.resilience - c.resilience)
    ensures c.throughput == c.tailLatency == c.correctness == c.resilience ==> c.total == c.throughput
  {
    c, d := Compute(s, v, e, p, log), Compute(s', v', e', p', log);
  }

  /** Throughput: 100 exactly from 50000 orders a second on, 0 exactly without orders or
      without time, and in proportion in between. */
  lemma ThroughputIs(s: Session, v: int, elapsed: real, p99: real, log: real -> real)
    requires log(BEST_NS) < log(WORST_NS) && s.orderCount >= 0
    ensures var x := Compute(s, v, elapsed, p99, log).throughput;
            && (x == 100.0 <==> elapsed > 0.0 && s.orderCount as real >= 50000.0 * elapsed)
            && (x == 0.0 <==> elapsed <= 0.0 || s.orderCount == 0)
            && (elapsed > 0.0 && s.orderCount as real <= 50000.0 * elapsed ==>
                  x * (500.0 * elapsed) == s.orderCount as real)
  {
    if elapsed > 0.0 {
      var n := s.orderCount as real;
      var tps := n / elapsed;
      assert tps * elapsed == n;
      Quotient(n, elapsed);
      RateIs(tps, n, elapsed);
      assert NormalizeLinear(tps, 0.0, 50000.0) == RMin(100.0, RMax(0.0, tps / 50000.0 * 100.0));
      var x := tps / 500.0;
      assert tps / 50000.0 * 100.0 == x && x * 500.0 == tps;
      ProductRegroups(x, elapsed, tps);
    }
  }

  lemma RateIs(tps: real, n: real, elapsed: real)
    requires elapsed > 0.0 && tps * elapsed == n
    ensures tps >= 50000.0 <==> n >= 50000.0 * elapsed
    ensures tps == 0.0 <==> n == 0.0
    ensures tps >= 0.0 <==> n >= 0.0
  {
    if tps >= 50000.0 {
      NonNegative(tps - 50000.0, elapsed);
    } else {
      var z := PositiveProduct(50000.0 - tps, elapsed);
    }
    if tps > 0.0 { var z := PositiveProduct(tps, elapsed); }
    if tps < 0.0 { var z := PositiveProduct(-tps, elapsed); }
  }

  lemma ProductRegroups(x: real, elapsed: real, tps: real)
    requires x * 500.0 == tps
    ensures x * (500.0 * elapsed) == tps * elapsed
  {
  }

  /** Tail latency, for the decimal logarithm: 20 points for each power of ten below 100 ms, from
      1 microsecond on. */
  lemma TailLatencyIs(s: Session, v: int, elapsed: real, p99: real, log: real -> real)
    requires Increasing(log) && log(1_000.0) == 3.0 && log(100_000_000.0) == 8.0
    ensures var x := Compute(s, v, elapsed, p99, log).tailLatency;
            && (p99 <= 0.0 ==> x == 0.0)
            && (0.0 < p99 <= 1_000.0 ==> x == 100.0)
            && (p99 >= 100_000_000.0 ==> x == 0.0)
            && (1_000.0 <= p99 <= 100_000_000.0 ==> x == 20.0 * (8.0 - log(p99)))
  {
    if p99 > 0.0 {
      assert 100.0 * (1.0 - (log(p99) - 3.0) / 5.0) == 20.0 * (8.0 - log(p99));
    }
  }

  /** Correctness in terms of the counts: c correct ones of f fills and v violations, of which at
      most f count, give 100 c (2f - v) / 2ff; without fills it is 0. */
  lemma CorrectnessIs(s: Session, violations: int, elapsed: real, p99: real, log: real -> real)
    requires log(BEST_NS) < log(WORST_NS) && s.totalFills >= 0 && violations >= 0
    ensures var x, c, f := Compute(s, violations, elapsed, p99, log).correctness, s.correctFills as real,
                           s.totalFills as real;
            var v := if violations < s.totalFills then violations as real else f;
            x * (2.0 * f * f) == 100.0 * c * (2.0 * f - v) && (f == 0.0 ==> x == 0.0)
    ensures Compute(s, violations, elapsed, p99, log).reportedViolations
         == if violations < s.totalFills then violations else s.totalFills
  {
    ReportedViolations(s, violations);
    CorrectnessOnCounts(s, violations, Compute(s, violations, elapsed, p99, log).correctness);
  }

  lemma CorrectnessOnCounts(s: Session, violations: int, x: real)
    requires s.totalFills >= 0 && violations >= 0 && x == Correctness(s, violations)
    ensures var c, f := s.correctFills as real, s.totalFills as real;
            var v := if violations < s.totalFills then violations as real else f;
            x * (2.0 * f * f) == 100.0 * c * (2.0 * f - v) && (f == 0.0 ==> x == 0.0)
  {
    if s.totalFills > 0 {
      var f := s.totalFills as real;
      RateTimesFills(s, violations);
      assert FillAccuracy(s) * f == s.correctFills as real;
      CorrectnessProduct(FillAccuracy(s), ViolationRate(s, violations), s.correctFills as real, f,
                         if violations < s.totalFills then violations as real else f);
    }
  }

  lemma RateTimesFills(s: Session, violations: int)
    requires s.totalFills > 0 && violations >= 0
    ensures ViolationRate(s, violations) * s.totalFills as real
         == if violations < s.totalFills then violations as real else s.totalFills as real
  {
    Quotient(violations as real, s.totalFills as real);
    assert violations as real / s.totalFills as real * s.totalFills as real == violations as real;
  }

  lemma CorrectnessProduct(a: real, q: real, c: real, f: real, v: real)
    requires a * f == c && q * f == v
    ensures a * 100.0 * (1.0 - q * 0.5) * (2.0 * f * f) == 100.0 * c * (2.0 * f - v)
  {
    assert 2.0 * f - v == f * (2.0 - q);
    assert 100.0 * c * (2.0 * f - v) == 100.0 * (a * f) * (f * (2.0 - q));
  }

  /** Resilience in terms of the session: 85 while no chaos run was measured from start to end on
      a baseline, or when it took no time. Otherwise the mean of two parts: the recovery part
      falls from 100 to 0 over 5 s, the degradation part from 100 at the baseline to 0 at three
      times the baseline. */
  lemma ResilienceIs(s: Session, v: int, elapsed: real, p99: real, log: real -> real)
    returns (x: real, recovery: real, degradation: real)
    requires log(BEST_NS) < log(WORST_NS)
    ensures x == Compute(s, v, elapsed, p99, log).resilience
    ensures s.chaosEndNs <= 0 || s.baselineP99Ns <= 0.0 || s.chaosEndNs == s.chaosStartNs ==> x == 85.0
    ensures s.chaosEndNs > 0 && s.baselineP99Ns > 0.0 && s.chaosEndNs != s.chaosStartNs ==>
              2.0 * x == recovery + degradation
    ensures s.chaosEndNs <= s.chaosStartNs ==> recovery == 100.0
    ensures s.chaosEndNs - s.chaosStartNs >= 5_000_000_000 ==> recovery == 0.0
    ensures 0 <= s.chaosEndNs - s.chaosStartNs <= 5_000_000_000 ==>
              recovery == 100.0 - (s.chaosEndNs - s.chaosStartNs) as real / 50_000_000.0
    ensures s.baselineP99Ns > 0.0 && s.chaosP99Ns <= s.baselineP99Ns ==> degradation == 100.0
    ensures s.baselineP99Ns > 0.0 && s.chaosP99Ns >= 3.0 * s.baselineP99Ns ==> degradation == 0.0
    ensures s.baselineP99Ns > 0.0 && s.baselineP99Ns <= s.chaosP99Ns <= 3.0 * s.baselineP99Ns ==>
              degradation == 150.0 - 50.0 * (s.chaosP99Ns / s.baselineP99Ns)
  {
    x := Compute(s, v, elapsed, p99, log).resilience;
    recovery := 100.0 - NormalizeLinear((s.chaosEndNs - s.chaosStartNs) as real / 1_000_000.0, 0.0, 5000.0);
    degradation := 0.0;
    if s.baselineP99Ns > 0.0 {
      var r := s.chaosP99Ns / s.baselineP99Ns;
      assert r * s.baselineP99Ns == s.chaosP99Ns;
      degradation := RMax(0.0, 100.0 - RMax(0.0, r - 1.0) * 50.0);
      RatioAgainst(r, s.chaosP99Ns, s.baselineP99Ns);
    }
  }

  lemma RatioAgainst(r: real, a: real, b: real)
    requires b > 0.0 && r * b == a
    ensures r <= 1.0 <==> a <= b
    ensures r >= 1.0 <==> a >= b
    ensures r >= 3.0 <==> a >= 3.0 * b
    ensures r <= 3.0 <==> a <= 3.0 * b
  {
    if r > 1.0 { var z := PositiveProduct(r - 1.0, b); }
    if r < 1.0 { var z := PositiveProduct(1.0 - r, b); }
    if r > 3.0 { var z := PositiveProduct(r - 3.0, b); }
    if r < 3.0 { var z := PositiveProduct(3.0 - r, b); }
  }

  // ---------------------------------------------------------------- the formulas as documented

  /** The documented correctness: one minus violations per fill, in percent. */
  function DocumentedCorrectness(s: Session, violations: int): real
    requires s.totalFills > 0
  {
    100.0 * (1.0 - violations as real / s.totalFills as real)
  }

  /** Where code and documentation agree: at most one violation per fill, and the correct fills
      in one exact proportion to the others. */
  lemma DocumentedCorrectnessIff(s: Session, violations: int)
    requires CountersOk(s) && violations >= 0 && s.totalFills > 0
    ensures var c, f, v := s.correctFills, s.totalFills, violations;
            Correctness(s, v) == DocumentedCorrectness(s, v) <==> v <= f && c * (2 * f - v) == 2 * f * (f - v)
  {
    var c, f, v := s.correctFills as real, s.totalFills as real, violations as real;
    var q, a := v / f, c / f;
    assert q * f == v && a * f == c;
    if violations <= s.totalFills {
      AtMostOne(v, f);
      assert ViolationRate(s, violations) == q;
      AgreeIff(a, q, c, f, v);
      RealProducts(s.correctFills, s.totalFills, violations);
    } else {
      MoreThanOne(v, f);
      CorrectnessInRange(s, violations);
    }
  }

  lemma AtMostOne(v: real, f: real)
    requires f > 0.0 && 0.0 <= v <= f
    ensures 0.0 <= v / f <= 1.0
  {
    var q := v / f;
    assert q * f == v;
  }

  lemma MoreThanOne(v: real, f: real)
    requires f > 0.0 && v > f
    ensures v / f > 1.0
  {
    var q := v / f;
    assert q * f == v;
  }

  lemma AgreeIff(a: real, q: real, c: real, f: real, v: real)
    requires f > 0.0 && a * f == c && q * f == v
    ensures a * 100.0 * (1.0 - q * 0.5) == 100.0 * (1.0 - q) <==> c * (2.0 * f - v) == 2.0 * f * (f - v)
  {
    var d := a * (2.0 - q) - 2.0 * (1.0 - q);
    assert a * 100.0 * (1.0 - q * 0.5) - 100.0 * (1.0 - q) == 50.0 * d;
    ScaledDifference(a, q, f);
    assert c * (2.0 * f - v) == (a * f) * (2.0 * f - q * f);
    assert 2.0 * f * (f - v) == 2.0 * f * (f - q * f);
    var g := PositiveProduct(f, f);
    ZeroProduct(g, d);
    assert (f * f) * d == g * d;
  }

  lemma PositiveProduct(x: real, y: real) returns (z: real)
    requires x > 0.0 && y > 0.0
    ensures z == x * y && z > 0.0
  {
    z := x * y;
  }

  lemma ScaledDifference(a: real, q: real, f: real)
    ensures (a * f) * (2.0 * f - q * f) - 2.0 * f * (f - q * f) == (f * f) * (a * (2.0 - q) - 2.0 * (1.0 - q))
  {
    assert 2.0 * f - q * f == f * (2.0 - q);
    assert f - q * f == f * (1.0 - q);
    assert (a * f) * (f * (2.0 - q)) == (f * f) * (a * (2.0 - q));
    assert 2.0 * f * (f * (1.0 - q)) == (f * f) * (2.0 * (1.0 - q));
  }

  lemma ZeroProduct(x: real, d: real)
    requires x > 0.0
    ensures x * d == 0.0 <==> d == 0.0
  {
  }

  lemma RealProducts(c: int, f: int, v: int)
    ensures c as real * (2.0 * f as real - v as real) == 2.0 * f as real * (f as real - v as real)
       <==> c * (2 * f - v) == 2 * f * (f - v)
  {
    assert c as real * (2.0 * f as real - v as real) == (c * (2 * f - v)) as real;
    assert 2.0 * f as real * (f as real - v as real) == (2 * f * (f - v)) as real;
  }

  function Clamp(x: real): real { RMin(1.0, RMax(0.0, x)) }

  const TARGET_NS := 1_000_000.0

  /** The documented tail latency: a linear ramp to 1 ms, in percent. */
  function DocumentedTailLatency(p99: real): real { 100.0 * Clamp(1.0 - p99 / TARGET_NS) }

  /** From 1 ms up to 100 ms the documentation gives 0 and the code does not, up to 1
      microsecond the code gives 100 (or 0 for nothing measured) and the documentation does
      not, and from 100 ms on both give 0; in between they meet where the logarithm does. */
  lemma DocumentedTailLatencyIff(p99: real, log: real -> real)
    requires Increasing(log)
    ensures log(BEST_NS) < log(WORST_NS)
    ensures TARGET_NS <= p99 < WORST_NS ==> DocumentedTailLatency(p99) == 0.0 < NormalizeTailLatency(p99, log)
    ensures NormalizeTailLatency(p99, log) == DocumentedTailLatency(p99)
       <==> p99 >= WORST_NS
            || (BEST_NS < p99 < TARGET_NS
                && (log(p99) - log(BEST_NS)) * TARGET_NS == p99 * (log(WORST_NS) - log(BEST_NS)))
  {
    TailLatencyEnds(p99, log);
    var r := p99 / TARGET_NS;
    assert r * TARGET_NS == p99;
    if BEST_NS < p99 < TARGET_NS {
      var x, w := log(p99) - log(BEST_NS), log(WORST_NS) - log(BEST_NS);
      Quotient(x, w);
      assert (x / w) * w == x;
      SameQuotient(x, w, p99, TARGET_NS);
    }
  }

  lemma SameQuotient(x: real, w: real, p: real, t: real)
    requires w > 0.0 && t > 0.0
    ensures x / w == p / t <==> x * t == p * w
  {
    var a, b := x / w, p / t;
    assert a * w == x && b * t == p;
    assert x * t == (a * w) * t == a * (w * t);
    assert p * w == (b * t) * w == b * (w * t);
    var z := PositiveProduct(w, t);
    ZeroProduct(z, a - b);
    assert (w * t) * (a - b) == a * (w * t) - b * (w * t);
  }

  /** The documented resilience: one minus the degradation ratio, in percent. */
  function DocumentedResilience(degradation: real): real { 100.0 * Clamp(1.0 - degradation) }

  function Within(x: real, low: real, high: real): real { RMin(high, RMax(low, x)) }

  /** Code and documentation agree on resilience in single points, or when both have reached 0. */
  lemma DocumentedResilienceIff(recoveryMs: real, degradation: real)
    requires degradation >= 0.0
    ensures NormalizeResilience(recoveryMs, degradation) == DocumentedResilience(degradation)
       <==> if recoveryMs == 0.0 then degradation == 0.15
            else Within(recoveryMs, 0.0, 5000.0) == 10000.0 * degradation
                 || (recoveryMs >= 5000.0 && degradation >= 3.0)
  {
  }
}
