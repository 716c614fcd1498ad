/** From speed to step period (motion.rs:291-358). */
module Periods {
  import opened Base
  import opened Kinematics
  import opened Motion

  lemma RoundMono(x: real, y: real)
    requires 0.0 <= x <= y
    ensures Round(x) <= Round(y)
  {
  }

  lemma QuotientFalls(n: real, x: real, y: real)
    requires n > 0.0 && 0.0 < x <= y
    ensures 0.0 < n / y <= n / x
  {
    var q := n / y;
    assert q * y == n;
    assert q > 0.0;
    MulMono(x, y, q);
    DivisionBound(q, x, n);
  }

  /** Steps a second at a squared speed, before the pulse timing limits it. */
  function Rate(cfg: MotionConfig, mm: real, domSteps: nat, vSq: real): real
    requires domSteps > 0
  {
    var mmPerStep := mm / domSteps as real;
    if mmPerStep > 0.0 then cfg.math.sqrt(MaxR(vSq, 0.0)) / mmPerStep else 0.0
  }

  lemma RateGrows(cfg: MotionConfig, mm: real, domSteps: nat, slow: real, fast: real)
    requires cfg.math.Valid() && mm > 0.0 && domSteps > 0 && 0.0 < slow <= fast
    ensures 0.0 < Rate(cfg, mm, domSteps, slow) <= Rate(cfg, mm, domSteps, fast)
  {
    var (s, f) := (cfg.math.sqrt(slow), cfg.math.sqrt(fast));
    SquareMonoBack(s, f);
    assert s != 0.0;
    var k := mm / domSteps as real;
    DivisionBound(0.0, domSteps as real, mm);
    assert k > 0.0 by { assert k * domSteps as real == mm; }
    var q := s / k;
    assert q * k == s;
    assert q > 0.0;
    DivisionBound(q, k, f);
  }

  /** The greatest step rate the pulse timing permits. */
  function TopRate(cfg: MotionConfig): real
    requires cfg.Usable()
  {
    cfg.tickHz / cfg.MinPeriod() as real
  }

  /** The period of a step rate that the pulse timing permits. */
  function PeriodOf(cfg: MotionConfig, rate: real): nat
    requires cfg.Usable()
  {
    if rate <= 0.0 then Clamp(SLOWEST_PERIOD_TICKS, cfg.MinPeriod(), cfg.MaxPeriod())
    else Clamp(Round(cfg.tickHz / rate), cfg.MinPeriod(), cfg.MaxPeriod())
  }

  lemma PeriodByRate(cfg: MotionConfig, mm: real, domSteps: nat, vSq: real)
    requires cfg.Usable() && domSteps > 0
    ensures PeriodTicks(cfg, mm, domSteps, vSq) == PeriodOf(cfg, MinR(Rate(cfg, mm, domSteps, vSq), TopRate(cfg)))
  {
    hide Round;
  }

  /** Of two positive speeds the faster never gets the longer period. */
  lemma FasterIsNeverLonger(cfg: MotionConfig, mm: real, domSteps: nat, slow: real, fast: real)
    requires cfg.Usable() && cfg.math.Valid() && mm > 0.0 && domSteps > 0 && 0.0 < slow <= fast
    ensures PeriodTicks(cfg, mm, domSteps, fast) <= PeriodTicks(cfg, mm, domSteps, slow)
  {
    RateGrows(cfg, mm, domSteps, slow, fast);
    PeriodByRate(cfg, mm, domSteps, slow);
    PeriodByRate(cfg, mm, domSteps, fast);
    TopRateIsPositive(cfg);
    hide PeriodTicks, Rate, TopRate, Round;
    var (s, f) := (MinR(Rate(cfg, mm, domSteps, slow), TopRate(cfg)), MinR(Rate(cfg, mm, domSteps, fast), TopRate(cfg)));
    QuotientFalls(cfg.tickHz, s, f);
    RoundMono(cfg.tickHz / f, cfg.tickHz / s);
  }

  lemma TopRateIsPositive(cfg: MotionConfig)
    requires cfg.Usable()
    ensures TopRate(cfg) > 0.0
  {
    QuotientFalls(cfg.tickHz, cfg.MinPeriod() as real, cfg.MinPeriod() as real);
  }

  /** The squared speed at which a step takes exactly `period` ticks. */
  function SpeedFor(cfg: MotionConfig, mm: real, domSteps: nat, period: nat): real
    requires domSteps > 0 && period > 0
  {
    Square(cfg.tickHz / period as real * (mm / domSteps as real))
  }

  lemma RateOfSpeed(cfg: MotionConfig, mm: real, domSteps: nat, period: nat)
    requires cfg.math.Valid() && cfg.tickHz > 0.0 && mm > 0.0 && domSteps > 0 && period > 0
    ensures SpeedFor(cfg, mm, domSteps, period) > 0.0
    ensures Rate(cfg, mm, domSteps, SpeedFor(cfg, mm, domSteps, period)) == cfg.tickHz / period as real
  {
    var k := mm / domSteps as real;
    assert k > 0.0 by { assert k * domSteps as real == mm; }
    var r := cfg.tickHz / period as real;
    assert r > 0.0 by { assert r * period as real == cfg.tickHz; }
    var v := r * k;
    assert v > 0.0 && v * v > 0.0;
    SqrtOfSquare(cfg.math, v);
    assert SpeedFor(cfg, mm, domSteps, period) == Square(v);
    assert v / k == r by { assert r * k == v; }
    hide Square;
  }

  /** Every representable period is the period of some speed. */
  lemma PeriodIsExact(cfg: MotionConfig, mm: real, domSteps: nat, period: nat)
    requires cfg.Usable() && cfg.math.Valid() && mm > 0.0 && domSteps > 0
    requires cfg.MinPeriod() <= period <= cfg.MaxPeriod()
    ensures SpeedFor(cfg, mm, domSteps, period) > 0.0
    ensures PeriodTicks(cfg, mm, domSteps, SpeedFor(cfg, mm, domSteps, period)) == period
  {
    RateOfSpeed(cfg, mm, domSteps, period);
    PeriodByRate(cfg, mm, domSteps, SpeedFor(cfg, mm, domSteps, period));
    RateWithinTop(cfg, period);
    PeriodOfItsRate(cfg, period);
    hide SpeedFor, PeriodTicks, PeriodOf, Rate, TopRate;
  }

  lemma RateWithinTop(cfg: MotionConfig, period: nat)
    requires cfg.Usable() && cfg.MinPeriod() <= period
    ensures 0.0 < cfg.tickHz / period as real <= TopRate(cfg)
  {
    QuotientFalls(cfg.tickHz, cfg.MinPeriod() as real, period as real);
  }

  lemma QuotientTwice(n: real, p: real)
    requires n > 0.0 && p > 0.0 && n / p > 0.0
    ensures n / (n / p) == p
  {
    var q := n / p;
    assert q * p == n;
  }

  lemma PeriodOfItsRate(cfg: MotionConfig, period: nat)
    requires cfg.Usable() && cfg.MinPeriod() <= period <= cfg.MaxPeriod() && cfg.tickHz / period as real > 0.0
    ensures PeriodOf(cfg, cfg.tickHz / period as real) == period
  {
    QuotientTwice(cfg.tickHz, period as real);
    var rate := cfg.tickHz / period as real;
    assert Round(cfg.tickHz / rate) == period by { RoundWhole(cfg.tickHz / rate, period); }
    hide Round;
  }

  lemma RoundWhole(x: real, n: nat)
    requires x == n as real
    ensures Round(x) == n
  {
  }

  /** The period of a standstill is meant to be the slowest there is. It is exactly when the pulse timing leaves only
      one period: otherwise some positive speed steps more slowly than no speed. */
  lemma StandstillIsSlowestIff(cfg: MotionConfig, mm: real, domSteps: nat)
    requires cfg.Usable() && cfg.math.Valid() && mm > 0.0 && domSteps > 0
    ensures (forall vSq: real :: vSq > 0.0 ==>
               PeriodTicks(cfg, mm, domSteps, vSq) <= PeriodTicks(cfg, mm, domSteps, 0.0))
            <==> cfg.MinPeriod() == cfg.MaxPeriod()
  {
    PeriodAtRest(cfg, mm, domSteps);
    var slowest := SpeedFor(cfg, mm, domSteps, cfg.MaxPeriod());
    PeriodIsExact(cfg, mm, domSteps, cfg.MaxPeriod());
    hide PeriodTicks, SpeedFor;
    if cfg.MinPeriod() != cfg.MaxPeriod() {
      assert PeriodTicks(cfg, mm, domSteps, slowest) > PeriodTicks(cfg, mm, domSteps, 0.0);
    }
  }

  lemma PeriodAtRest(cfg: MotionConfig, mm: real, domSteps: nat)
    requires cfg.Usable() && cfg.math.Valid() && mm > 0.0 && domSteps > 0
    ensures PeriodTicks(cfg, mm, domSteps, 0.0) == Clamp(SLOWEST_PERIOD_TICKS, cfg.MinPeriod(), cfg.MaxPeriod())
  {
    var s := cfg.math.sqrt(0.0);
    SquareMonoBack(s, 0.0);
    assert s == 0.0;
  }
}
