/**
 The control loop of a hint session (power-libperfmgr/aidl/PowerHintSession.cpp
 convertWorkDurationToBoostByPid, updateSessionJankState, updateHeuristicBoost and the clamping at
 the end of reportActualWorkDuration).  Gains are reals; times are whole units of 100 us.
 */
module PidController {
  import opened Basics

  const UNIT_NS: int := 100000

  /** windows of 0 mean all samples; iLow and iHigh bound the integral; the janky thresholds and the
      uclamp ranges steer the heuristic boost. */
  datatype Profile = Profile(windowP: nat, windowI: nat, windowD: nat, iLow: int, iHigh: int,
                             gainPo: real, gainPu: real, gainI: real, gainDo: real, gainDu: real,
                             hboost: bool, severePu: real, moderate: int, severe: int, offRatio: real,
                             uclampLow: int, uclampHigh: int,
                             floorLow: int, floorHigh: int, ceilingLow: int, ceilingHigh: int)

  // ---------------------------------------------------------------- one batch of errors

  function ErrorOf(duration: int, target: int): int {
    TruncDiv(duration - target, UNIT_NS)
  }

  function Errors(durations: seq<int>, target: int): seq<int> {
    seq(|durations|, i requires 0 <= i < |durations| => ErrorOf(durations[i], target))
  }

  /** Where a window over the last samples starts. */
  function Start(window: nat, length: nat): (s: nat)
    ensures length > 0 ==> s < length
    ensures length > 0 ==> length - s == if window == 0 || window > length then length else window
  {
    if window == 0 || window > length then 0 else length - window
  }

  function First(p: Profile, length: nat): (s: nat)
    ensures length > 0 ==> s < length
  {
    Min(Start(p.windowP, length), Min(Start(p.windowI, length), Start(p.windowD, length)))
  }

  function Product(a: int, b: int): int {
    a * b
  }

  /** The bounds are applied high first, then low. */
  function Clamp(p: Profile, x: int): int {
    Max(p.iLow, Min(p.iHigh, x))
  }

  datatype Sums = Sums(err: int, derivative: int, integral: int, previous: int)

  function Take(p: Profile, es: seq<int>, dt: int, s: Sums, i: nat): Sums
    requires i < |es|
  {
    Sums(if i >= Start(p.windowP, |es|) then s.err + es[i] else s.err,
         if i >= Start(p.windowD, |es|) then s.derivative + (es[i] - s.previous) else s.derivative,
         if i >= Start(p.windowI, |es|) then Clamp(p, s.integral + Product(es[i], dt)) else s.integral,
         es[i])
  }

  /** The sums after all samples before i. */
  function Scan(p: Profile, es: seq<int>, dt: int, integral: int, previous: int, i: nat): Sums
    requires First(p, |es|) <= i <= |es|
    decreases i
  {
    if i == First(p, |es|) then Sums(0, 0, integral, previous)
    else Take(p, es, dt, Scan(p, es, dt, integral, previous, i - 1), i - 1)
  }

  // ---------------------------------------------------------------- what the sums are

  function SumOf(es: seq<int>, a: nat, b: nat): int
    requires b <= |es|
    decreases b
  {
    if b <= a then 0 else SumOf(es, a, b - 1) + es[b - 1]
  }

  /** The integral as a fold over the window, clamped after every sample. */
  function Integrate(p: Profile, es: seq<int>, dt: int, integral: int, a: nat, b: nat): int
    requires b <= |es|
    decreases b
  {
    if b <= a then integral else Clamp(p, Integrate(p, es, dt, integral, a, b - 1) + Product(es[b - 1], dt))
  }

  /** The error just before sample i: of the sample before it, if the loop saw that one, or of the
      last batch. */
  function Before(p: Profile, es: seq<int>, previous: int, i: nat): int
    requires i <= |es|
  {
    if i > First(p, |es|) then es[i - 1] else previous
  }

  lemma {:induction false} ScanPrevious(p: Profile, es: seq<int>, dt: int, integral: int, previous: int, i: nat)
    requires First(p, |es|) <= i <= |es|
    ensures Scan(p, es, dt, integral, previous, i).previous == Before(p, es, previous, i)
  {
  }

  lemma {:induction false} ScanErr(p: Profile, es: seq<int>, dt: int, integral: int, previous: int, i: nat)
    requires First(p, |es|) <= i <= |es|
    ensures Scan(p, es, dt, integral, previous, i).err == SumOf(es, Start(p.windowP, |es|), i)
    decreases i
  {
    if i > First(p, |es|) {
      ScanErr(p, es, dt, integral, previous, i - 1);
    }
  }

  lemma {:induction false} ScanIntegral(p: Profile, es: seq<int>, dt: int, integral: int, previous: int, i: nat)
    requires First(p, |es|) <= i <= |es|
    ensures Scan(p, es, dt, integral, previous, i).integral == Integrate(p, es, dt, integral, Start(p.windowI, |es|), i)
    decreases i
  {
    if i > First(p, |es|) {
      ScanIntegral(p, es, dt, integral, previous, i - 1);
    }
  }

  lemma {:induction false} ScanDerivative(p: Profile, es: seq<int>, dt: int, integral: int, previous: int, i: nat)
    requires First(p, |es|) <= i <= |es|
    ensures var d := Start(p.windowD, |es|);
            Scan(p, es, dt, integral, previous, i).derivative ==
            if i <= d then 0 else es[i - 1] - Before(p, es, previous, d)
    decreases i
  {
    if i > First(p, |es|) {
      ScanDerivative(p, es, dt, integral, previous, i - 1);
      ScanPrevious(p, es, dt, integral, previous, i - 1);
    }
  }

  /** After a batch: the error sum is that of the P window, the derivative sum telescopes, the
      integral is the clamped fold over the I window and lies within its bounds. */
  lemma {:induction false} BatchExact(p: Profile, es: seq<int>, dt: int, integral: int, previous: int)
    requires |es| > 0
    ensures var s := Scan(p, es, dt, integral, previous, |es|);
            && s.err == SumOf(es, Start(p.windowP, |es|), |es|)
            && s.derivative == es[|es| - 1] - Before(p, es, previous, Start(p.windowD, |es|))
            && s.integral == Integrate(p, es, dt, integral, Start(p.windowI, |es|), |es|)
            && p.iLow <= s.integral <= Max(p.iLow, p.iHigh)
            && s.previous == es[|es| - 1]
  {
    ScanErr(p, es, dt, integral, previous, |es|);
    ScanDerivative(p, es, dt, integral, previous, |es|);
    ScanIntegral(p, es, dt, integral, previous, |es|);
    ScanPrevious(p, es, dt, integral, previous, |es|);
  }

  /** Clamping after every sample keeps order: a larger integral before is no smaller after. */
  lemma {:induction false} IntegralIsMonotone(p: Profile, es: seq<int>, dt: int, x: int, y: int, a: nat, b: nat)
    requires b <= |es| && x <= y
    ensures Integrate(p, es, dt, x, a, b) <= Integrate(p, es, dt, y, a, b)
    decreases b
  {
    if a < b {
      IntegralIsMonotone(p, es, dt, x, y, a, b - 1);
    }
  }

  /** While no clamp bites, the integral is the plain sum. */
  lemma {:induction false} UnclampedIntegral(p: Profile, es: seq<int>, dt: int, x: int, a: nat, b: nat)
    requires a <= b <= |es|
    requires forall j :: a < j <= b ==> p.iLow <= x + Product(SumOf(es, a, j), dt) <= p.iHigh
    ensures Integrate(p, es, dt, x, a, b) == x + Product(SumOf(es, a, b), dt)
    decreases b
  {
    if a < b {
      UnclampedIntegral(p, es, dt, x, a, b - 1);
      Distribute(SumOf(es, a, b - 1), es[b - 1], dt);
      assert p.iLow <= x + Product(SumOf(es, a, b), dt) <= p.iHigh;
    }
  }

  lemma {:induction false} Distribute(a: int, b: int, c: int)
    ensures Product(a + b, c) == Product(a, c) + Product(b, c)
  {
  }

  // ---------------------------------------------------------------- the output

  function Truncate(x: real): int {
    if x >= 0.0 then x.Floor else -((-x).Floor)
  }

  /** Positive and negative errors have gains of their own. */
  function Output(p: Profile, s: Sums, pu: real, dt: int, length: nat): int
    requires length > 0 && dt != 0
  {
    var pOut := Truncate((if s.err > 0 then p.gainPo else pu) * s.err as real / (length - Start(p.windowP, length)) as real);
    var iOut := Truncate(p.gainI * s.integral as real);
    var dOut := Truncate((if s.derivative > 0 then p.gainDo else p.gainDu) * s.derivative as real
                         / dt as real / (length - Start(p.windowD, length)) as real);
    pOut + iOut + dOut
  }

  /** The divisors are non-zero exactly for targets of at least 100 us; the window ones always are. */
  lemma {:induction false} DivisorsExact(p: Profile, target: int, length: nat)
    requires length > 0
    ensures TruncDiv(target, UNIT_NS) != 0 <==> Abs(target) >= UNIT_NS
    ensures length - Start(p.windowP, length) > 0 && length - Start(p.windowD, length) > 0
  {
  }

  // ---------------------------------------------------------------- the heuristic boost

  datatype Level = LIGHT | MODERATE | SEVERE

  datatype Jank = Jank(level: Level, frames: int)

  datatype Observation =
    | NoHistory
    | Observed(jankFrames: int, ratio: real, lowFps: bool)
    | Reset

  function NextLevel(p: Profile, from: Level, frames: int, ratio: real, lowFps: bool): Level {
    if lowFps then LIGHT
    else if frames < p.moderate then (if from == LIGHT || ratio < p.offRatio then LIGHT else MODERATE)
    else if frames < p.severe then MODERATE
    else SEVERE
  }

  function Observe(p: Profile, j: Jank, o: Observation): Jank {
    match o
    case NoHistory => j
    case Observed(frames, ratio, low) => Jank(NextLevel(p, j.level, frames, ratio, low), frames)
    case Reset => Jank(LIGHT, 0)
  }

  function ObserveAll(p: Profile, os: seq<Observation>): Jank {
    if os == [] then Jank(LIGHT, 0) else Observe(p, ObserveAll(p, os[..|os| - 1]), os[|os| - 1])
  }

  /** How far the frames are between the two thresholds. */
  function JankyFactor(p: Profile, j: Jank): real
    requires j.frames >= p.moderate ==> p.severe != p.moderate
  {
    if j.frames < p.moderate then 0.0 else (j.frames - p.moderate) as real / (p.severe - p.moderate) as real
  }

  lemma {:induction false} FractionBelowOne(a: int, b: int)
    requires 0 <= a < b
    ensures 0.0 <= a as real / b as real < 1.0
  {
  }

  /** After any observations, a moderate level comes with a factor in [0, 1), whatever the thresholds;
      in particular its divisor is not zero. */
  lemma {:induction false} ModerateFactorInRange(p: Profile, os: seq<Observation>)
    ensures var j := ObserveAll(p, os);
            j.level == MODERATE ==> (j.frames >= p.moderate ==> p.severe != p.moderate)
                                    && 0.0 <= JankyFactor(p, j) < 1.0
  {
    ModerateBelowSevere(p, os);
    var j := ObserveAll(p, os);
    if j.level == MODERATE && j.frames >= p.moderate {
      FractionBelowOne(j.frames - p.moderate, p.severe - p.moderate);
    }
  }

  lemma {:induction false} ModerateBelowSevere(p: Profile, os: seq<Observation>)
    ensures var j := ObserveAll(p, os); j.level == MODERATE && j.frames >= p.moderate ==> j.frames < p.severe
  {
    if os != [] {
      ModerateBelowSevere(p, os[..|os| - 1]);
    }
  }

  function Scale(f: real, a: real): real {
    f * a
  }

  lemma {:induction false} Opposed(x: real, y: real)
    requires x >= 0.0 && y <= 0.0
    ensures x * y <= 0.0
  {
  }

  lemma {:induction false} ScaleNegative(f: real, a: real)
    requires a <= 0.0 && 0.0 <= f < 1.0
    ensures a <= Scale(f, a) <= 0.0
  {
    Opposed(f, a);
    Opposed(1.0 - f, a);
    assert (1.0 - f) * a == a - f * a;
  }

  function LowerOf(a: real, b: real): real {
    if a < b then a else b
  }

  /** The gain for negative errors in force: sinking to the severe one as the level rises. */
  function ActivePu(p: Profile, j: Jank): real
    requires j.level == MODERATE && j.frames >= p.moderate ==> p.severe != p.moderate
  {
    var h := LowerOf(p.severePu, p.gainPu);
    if !p.hboost || j.level == LIGHT then p.gainPu
    else if j.level == MODERATE then p.gainPu + Scale(JankyFactor(p, j), h - p.gainPu)
    else h
  }

  /** After any observations the gain lies between the severe and the plain one. */
  lemma {:induction false} ActivePuInRange(p: Profile, os: seq<Observation>)
    ensures var j := ObserveAll(p, os);
            && (j.level == MODERATE && j.frames >= p.moderate ==> p.severe != p.moderate)
            && LowerOf(p.severePu, p.gainPu) <= ActivePu(p, j) <= p.gainPu
  {
    var j := ObserveAll(p, os);
    ModerateFactorInRange(p, os);
    if j.level == MODERATE {
      ScaleNegative(JankyFactor(p, j), LowerOf(p.severePu, p.gainPu) - p.gainPu);
    }
  }

  // ---------------------------------------------------------------- the next control value

  function Between(lo: int, hi: int, f: real): int {
    (lo as real + (hi - lo) as real * f).Floor
  }

  function Floor(p: Profile, j: Jank): int
    requires j.level == MODERATE && j.frames >= p.moderate ==> p.severe != p.moderate
  {
    if !p.hboost || j.level == LIGHT then p.uclampLow
    else
      var lo, hi := Max(p.uclampLow, p.floorLow), Max(p.uclampLow, p.floorHigh);
      if j.level == MODERATE then Between(lo, hi, JankyFactor(p, j)) else hi
  }

  function Ceiling(p: Profile, j: Jank): int
    requires j.level == MODERATE && j.frames >= p.moderate ==> p.severe != p.moderate
  {
    if !p.hboost || j.level == LIGHT then p.uclampHigh
    else
      var lo, hi := Max(p.uclampHigh, p.ceilingLow), Max(p.uclampHigh, p.ceilingHigh);
      if j.level == MODERATE then Between(lo, hi, JankyFactor(p, j)) else hi
  }

  function NextControl(p: Profile, j: Jank, current: int, output: int): int
    requires j.level == MODERATE && j.frames >= p.moderate ==> p.severe != p.moderate
  {
    Max(Floor(p, j), Min(Ceiling(p, j), current + output))
  }

  lemma {:induction false} BetweenBounds(lo: int, hi: int, f: real)
    requires lo <= hi && 0.0 <= f < 1.0
    ensures lo <= Between(lo, hi, f) <= hi
  {
    Scaled((hi - lo) as real, f);
  }

  lemma {:induction false} Scaled(a: real, f: real)
    requires a >= 0.0 && 0.0 <= f < 1.0
    ensures 0.0 <= a * f <= a
  {
  }

  predicate WellOrdered(p: Profile) {
    p.floorLow <= p.floorHigh && p.ceilingLow <= p.ceilingHigh
  }

  /** After any observations, the next control value lies between the active floor and ceiling (the
      floor wins), is the sum itself whenever that fits, and the active bounds never fall below the
      plain ones nor leave their configured ranges. */
  lemma {:induction false} NextControlExact(p: Profile, os: seq<Observation>, current: int, output: int)
    requires WellOrdered(p)
    ensures var j := ObserveAll(p, os);
            && (j.level == MODERATE && j.frames >= p.moderate ==> p.severe != p.moderate)
            && Floor(p, j) <= NextControl(p, j, current, output) <= Max(Floor(p, j), Ceiling(p, j))
            && (Floor(p, j) <= current + output <= Ceiling(p, j) ==> NextControl(p, j, current, output) == current + output)
            && p.uclampLow <= Floor(p, j) <= Max(p.uclampLow, p.floorHigh)
            && p.uclampHigh <= Ceiling(p, j) <= Max(p.uclampHigh, p.ceilingHigh)
  {
    var j := ObserveAll(p, os);
    ModerateFactorInRange(p, os);
    if j.level == MODERATE {
      var f := JankyFactor(p, j);
      BetweenBounds(Max(p.uclampLow, p.floorLow), Max(p.uclampLow, p.floorHigh), f);
      BetweenBounds(Max(p.uclampHigh, p.ceilingLow), Max(p.uclampHigh, p.ceilingHigh), f);
    }
  }

  // ---------------------------------------------------------------- the session's method

  class PidState {
    var integral: int
    var previous: int

    /** The loop over a batch; pu is the gain for negative errors in force. */
    method Convert(p: Profile, durations: seq<int>, target: int, pu: real) returns (output: int)
      requires |durations| > 0 && Abs(target) >= UNIT_NS
      modifies this
      ensures TruncDiv(target, UNIT_NS) != 0
      ensures var dt := TruncDiv(target, UNIT_NS);
              var s := Scan(p, Errors(durations, target), dt, old(integral), old(previous), |durations|);
              integral == s.integral && previous == s.previous && output == Output(p, s, pu, dt, |durations|)
      ensures p.iLow <= integral <= Max(p.iLow, p.iHigh)
    {
      var length := |durations|;
      DivisorsExact(p, target, length);
      var dt := TruncDiv(target, UNIT_NS);
      var pStart, iStart, dStart := Start(p.windowP, length), Start(p.windowI, length), Start(p.windowD, length);
      var errSum, derivativeSum := 0, 0;
      ghost var es := Errors(durations, target);
      var i := Min(pStart, Min(iStart, dStart));
      while i < length
        invariant First(p, |es|) <= i <= length
        invariant Sums(errSum, derivativeSum, integral, previous) == Scan(p, es, dt, old(integral), old(previous), i)
      {
        var error := ErrorOf(durations[i], target);
        if i >= dStart {
          derivativeSum := derivativeSum + (error - previous);
        }
        if i >= pStart {
          errSum := errSum + error;
        }
        if i >= iStart {
          integral := integral + Product(error, dt);
          integral := Min(p.iHigh, integral);
          integral := Max(p.iLow, integral);
        }
        previous := error;
        i := i + 1;
      }
      BatchExact(p, es, dt, old(integral), old(previous));
      output := Output(p, Sums(errSum, derivativeSum, integral, previous), pu, dt, length);
    }
  }
}
