/**
  Rates from counter snapshots: MPERF/TSC load and RAPL power, with the
  drivers' own widths, truncations and floor divisions.
 */
module DeltaMetrics {
  import opened Words

  // ---------------------------------------------------------------- load

  /** C0 residency of one interval in percent; the cast to 32 bits precedes the clamp. */
  function LoadOf(mperfDelta: u64, tscDelta: u64): u32 {
    if tscDelta == 0 then 0 else Clamp(Trunc64(mperfDelta * 100) / tscDelta)
  }

  function Clamp(quotient: nat): u32 {
    var load := Trunc32(quotient);
    if load > 100 then 100 else load
  }

  function LoadPercent(prevMperf: u64, prevTsc: u64, currMperf: u64, currTsc: u64): u32 {
    LoadOf(Trunc64(currMperf - prevMperf), Trunc64(currTsc - prevTsc))
  }

  /** On unbounded counters whose MPERF advances no faster than the TSC, the value is the exact floor. */
  lemma LoadExact(mperf0: nat, mperf1: nat, tsc0: nat, tsc1: nat)
    requires mperf0 <= mperf1 && tsc0 < tsc1 < tsc0 + TWO64
    requires mperf1 - mperf0 <= tsc1 - tsc0
    requires (mperf1 - mperf0) * 100 < TWO64
    ensures LoadPercent(Trunc64(mperf0), Trunc64(tsc0), Trunc64(mperf1), Trunc64(tsc1))
         == (mperf1 - mperf0) * 100 / (tsc1 - tsc0)
  {
    WrapSub64(mperf0, mperf1);
    WrapSub64(tsc0, tsc1);
    LoadOfExact(mperf1 - mperf0, tsc1 - tsc0);
  }

  lemma LoadOfExact(md: u64, td: u64)
    requires md <= td && 0 < td && md * 100 < TWO64
    ensures LoadOf(md, td) == md * 100 / td
  {
    LoadQuotient(md, td);
    ClampId(md * 100 / td);
    TruncId64(md * 100);
  }

  lemma ClampId(q: nat)
    requires q <= 100
    ensures Clamp(q) == q
  {}

  lemma TruncId64(x: nat)
    requires x < TWO64
    ensures Trunc64(x) == x
  {
  }

  /** The reported load is a percentage whatever the counters do. */
  lemma LoadIsPercent(prevMperf: u64, prevTsc: u64, currMperf: u64, currTsc: u64)
    ensures 0 <= LoadPercent(prevMperf, prevTsc, currMperf, currTsc) <= 100
  {}

  lemma LoadQuotient(md: nat, td: nat)
    requires md <= td && 0 < td
    ensures 0 <= md * 100 / td <= 100
  {
    DivAtMost(md * 100, td, 100);
  }

  /** A counter read modulo 2^64 still gives the true step, as long as the step is below 2^64. */
  lemma WrapSub64(a: int, b: int)
    requires a <= b < a + TWO64
    ensures Trunc64(Trunc64(b) - Trunc64(a)) == b - a
  {}

  // --------------------------------------------------------------- power

  /** Step of a wrapping 32-bit energy counter, branch by branch in 32-bit arithmetic. */
  function EnergyDelta(curr: u32, prev: u32): u32 {
    if curr >= prev then curr - prev
    else Trunc32(Trunc32(Trunc32(MAX32 - prev) + curr) + 1)
  }

  /** The wrap branch is subtraction modulo 2^32 and no intermediate sum overflows. */
  lemma EnergyDeltaIsModular(curr: u32, prev: u32)
    ensures EnergyDelta(curr, prev) == Trunc32(curr - prev)
    ensures curr < prev ==> (MAX32 - prev) + curr + 1 < TWO32
  {}

  function TimeMs(freq: i64, currQpc: i64, prevQpc: i64): u64
    requires freq != 0
  {
    Trunc64(Trunc64(currQpc - prevQpc) * 1000) / Trunc64(freq)
  }

  function MilliJoules(delta: u32, divisor: u32): nat
    requires divisor != 0
  {
    Trunc64(delta * 1000) / divisor
  }

  /** Milliwatts over one interval; the last step casts the quotient to 32 bits. */
  function PowerOf(delta: u32, divisor: u32, timeMs: u64): u32
    requires divisor != 0 && timeMs != 0
  {
    Trunc32(Trunc64(MilliJoules(delta, divisor) * 1000) / timeMs)
  }

  function PowerMilliwatts(divisor: u32, freq: i64, currEnergy: u32, prevEnergy: u32,
                           currQpc: i64, prevQpc: i64, hasPrev: bool): u32 {
    if !hasPrev || divisor == 0 || freq == 0 then 0
    else
      var timeMs := TimeMs(freq, currQpc, prevQpc);
      if timeMs == 0 then 0
      else PowerOf(EnergyDelta(currEnergy, prevEnergy), divisor, timeMs)
  }

  /** Nothing before the final cast overflows 64 bits. */
  lemma PowerFits(delta: u32, divisor: u32)
    requires divisor != 0
    ensures delta * 1000 < TWO64
    ensures MilliJoules(delta, divisor) == delta * 1000 / divisor
    ensures MilliJoules(delta, divisor) * 1000 < TWO64
  {
    var energy: nat := delta * 1000;
    MulLe(1, divisor, energy);
    assert energy * divisor == divisor * energy;
    DivAtMost(energy, divisor, energy);
    assert Trunc64(energy) == energy;
  }

  /** What the two floors lose, cross-multiplied. */
  lemma TwoFloors(delta: nat, divisor: nat, timeMs: nat)
    requires divisor > 0 && timeMs > 0
    ensures var q := delta * 1000 / divisor * 1000 / timeMs;
            q * (divisor * timeMs) <= delta * 1_000_000 < (q + 1) * (divisor * timeMs) + 1000 * divisor
  {
    var mj := delta * 1000 / divisor;
    var q := mj * 1000 / timeMs;
    assert mj * divisor <= delta * 1000 < (mj + 1) * divisor;
    assert q * timeMs <= mj * 1000 < (q + 1) * timeMs;
    assert q * timeMs * divisor <= mj * 1000 * divisor;
    assert mj * 1000 * divisor <= (q + 1) * timeMs * divisor;
    assert q * timeMs * divisor == q * (divisor * timeMs);
    assert (q + 1) * timeMs * divisor == (q + 1) * (divisor * timeMs);
    assert (mj + 1) * divisor == mj * divisor + divisor;
    assert mj * 1000 * divisor == mj * divisor * 1000;
  }

  ghost function TruePower(delta: u32, divisor: u32, timeMs: u64): real
    requires divisor != 0 && timeMs != 0
  {
    assert divisor * timeMs > 0;
    (delta * 1_000_000) as real / (divisor * timeMs) as real
  }

  /**
    The reported power never exceeds the true one and falls short of it by
    less than 1000/timeMs + 1 mW, exactly when the quotient survives the cast.
   */
  lemma PowerErrorBound(delta: u32, divisor: u32, timeMs: u64)
    requires divisor != 0 && timeMs != 0
    ensures var r := PowerOf(delta, divisor, timeMs) as real;
            (r <= TruePower(delta, divisor, timeMs) < r + 1.0 + 1000.0 / timeMs as real)
            <==> MilliJoules(delta, divisor) * 1000 / timeMs < TWO32
  {
    var q := Quotient(delta, divisor, timeMs);
    OneOver(timeMs);
    CastBound(TruePower(delta, divisor, timeMs), 1000.0 / timeMs as real, q);
  }

  /** The two floored divisions before the cast. */
  lemma Quotient(delta: u32, divisor: u32, timeMs: u64) returns (q: nat)
    requires divisor != 0 && timeMs != 0
    ensures q == MilliJoules(delta, divisor) * 1000 / timeMs
    ensures PowerOf(delta, divisor, timeMs) == Trunc32(q)
    ensures q as real <= TruePower(delta, divisor, timeMs) < q as real + 1.0 + 1000.0 / timeMs as real
  {
    PowerFits(delta, divisor);
    TruncId64(MilliJoules(delta, divisor) * 1000);
    TwoFloors(delta, divisor, timeMs);
    q := delta * 1000 / divisor * 1000 / timeMs;
    assert q >= 0;
    RealBounds(delta * 1_000_000, q, divisor, timeMs);
  }

  /** A value bracketed by the quotient stays bracketed by its 32-bit cast exactly when nothing is cut off. */
  lemma CastBound(p: real, k: real, q: nat)
    requires q as real <= p < q as real + 1.0 + k && k <= 1000.0
    ensures (Trunc32(q) as real <= p < Trunc32(q) as real + 1.0 + k) <==> q < TWO32
  {
    var cut: int := q - Trunc32(q);
    assert cut >= 0 && (cut == 0 <==> q < TWO32) && (cut > 0 ==> cut >= TWO32);
    assert q as real == Trunc32(q) as real + cut as real;
  }

  lemma OneOver(t: nat)
    requires t >= 1
    ensures 1000.0 / t as real <= 1000.0
  {
    var x := 1000.0 / t as real;
    assert x * t as real == 1000.0;
    if x > 1000.0 && t > 1 { MulMono(1.0, t as real, x); }
  }

  lemma RealBounds(n: nat, q: nat, divisor: nat, timeMs: nat)
    requires divisor > 0 && timeMs > 0
    requires divisor * timeMs > 0
    requires q * (divisor * timeMs) <= n < (q + 1) * (divisor * timeMs) + 1000 * divisor
    ensures q as real <= n as real / (divisor * timeMs) as real < q as real + 1.0 + 1000.0 / timeMs as real
  {
    var d, t, qr := divisor as real, timeMs as real, q as real;
    var dt := (divisor * timeMs) as real;
    var k := 1000.0 / t;
    assert dt == d * t && k * t == 1000.0;
    assert k * dt == 1000.0 * d by { assert k * (d * t) == (k * t) * d; }
    assert (q * (divisor * timeMs)) as real == qr * dt;
    assert ((q + 1) * (divisor * timeMs)) as real == (qr + 1.0) * dt;
    DivFrom(qr, n as real, dt);
    assert (qr + 1.0 + k) * dt == (qr + 1.0) * dt + k * dt;
    DivBelow(qr + 1.0 + k, n as real, dt);
  }

  lemma DivFrom(a: real, b: real, c: real)
    requires c > 0.0 && a * c <= b
    ensures a <= b / c
  {
    assert (b / c) * c == b;
    if b / c < a { MulMono(b / c, a, c); }
  }

  lemma DivBelow(a: real, b: real, c: real)
    requires c > 0.0 && b < a * c
    ensures b / c < a
  {
    assert (b / c) * c == b;
    if a < b / c { MulMono(a, b / c, c); }
  }

  lemma MulMono(a: real, b: real, c: real)
    requires a < b && c > 0.0
    ensures a * c < b * c
  {}

  // --------------------------------------------------- conservation on runs

  /** What the drivers read: a counter of unbounded energy, 32 bits of it. */
  function Raw(energy: seq<nat>): (r: seq<u32>)
    ensures |r| == |energy| && forall i :: 0 <= i < |r| ==> r[i] == Trunc32(energy[i])
  {
    seq(|energy|, i requires 0 <= i < |energy| => Trunc32(energy[i]))
  }

  /** Sum of the deltas over a run of samples. */
  function DeltaSum(raw: seq<u32>): nat {
    if |raw| < 2 then 0
    else DeltaSum(raw[..|raw| - 1]) + EnergyDelta(raw[|raw| - 1], raw[|raw| - 2])
  }

  /** Sum of the per-step millijoule floors over a run of samples. */
  function MilliJouleSum(raw: seq<u32>, divisor: u32): nat
    requires divisor != 0
  {
    if |raw| < 2 then 0
    else
      var last := MilliJoules(EnergyDelta(raw[|raw| - 1], raw[|raw| - 2]), divisor);
      MilliJouleSum(raw[..|raw| - 1], divisor) + last
  }

  ghost predicate Monotone(energy: seq<nat>) {
    forall i :: 0 < i < |energy| ==> energy[i - 1] <= energy[i]
  }

  ghost predicate StepsFit(energy: seq<nat>) {
    forall i :: 0 < i < |energy| ==> energy[i] - energy[i - 1] < TWO32
  }

  /** One step: the delta never overstates a monotone counter, and is right exactly for steps below 2^32. */
  lemma StepExact(before: nat, after: nat)
    requires before <= after
    ensures var d := EnergyDelta(Trunc32(after), Trunc32(before));
            before + d <= after && (before + d == after <==> after - before < TWO32)
  {
    EnergyDeltaIsModular(Trunc32(after), Trunc32(before));
  }

  /**
    Energy conservation: over any run of a monotone counter the deltas sum to
    last minus first if and only if every step is below 2^32.
   */
  lemma {:induction false} EnergyConserved(energy: seq<nat>)
    requires |energy| >= 1 && Monotone(energy)
    ensures energy[0] + DeltaSum(Raw(energy)) <= energy[|energy| - 1]
    ensures energy[0] + DeltaSum(Raw(energy)) == energy[|energy| - 1] <==> StepsFit(energy)
  {
    var n := |energy|;
    if n >= 2 {
      var init := energy[..n - 1];
      EnergyConserved(init);
      var d := LastStep(energy);
      StepsFitSplit(energy);
    }
  }

  lemma LastStep(energy: seq<nat>) returns (d: nat)
    requires |energy| >= 2 && Monotone(energy)
    ensures var n := |energy|;
            && DeltaSum(Raw(energy)) == DeltaSum(Raw(energy[..n - 1])) + d
            && energy[n - 2] + d <= energy[n - 1]
            && (energy[n - 2] + d == energy[n - 1] <==> energy[n - 1] - energy[n - 2] < TWO32)
  {
    var n := |energy|;
    assert Raw(energy)[..n - 1] == Raw(energy[..n - 1]);
    StepExact(energy[n - 2], energy[n - 1]);
    d := EnergyDelta(Raw(energy)[n - 1], Raw(energy)[n - 2]);
  }

  lemma StepsFitSplit(energy: seq<nat>)
    requires |energy| >= 2
    ensures var n := |energy|;
            StepsFit(energy) <==> StepsFit(energy[..n - 1]) && energy[n - 1] - energy[n - 2] < TWO32
  {}

  /** Over any run of samples the millijoule floors lose less than one millijoule per interval. */
  lemma {:induction false} MilliJouleLoss(raw: seq<u32>, divisor: u32)
    requires divisor != 0 && |raw| >= 1
    ensures LossWithin(DeltaSum(raw) * 1000, MilliJouleSum(raw, divisor), divisor, |raw| - 1)
  {
    var n := |raw|;
    if n >= 2 {
      MilliJouleLoss(raw[..n - 1], divisor);
      var d: int := EnergyDelta(raw[n - 1], raw[n - 2]);
      PowerFits(d, divisor);
      LossAdds(DeltaSum(raw[..n - 1]) * 1000, d * 1000, divisor, MilliJouleSum(raw[..n - 1], divisor),
               MilliJoules(d, divisor), n - 2);
    } else {
      assert DeltaSum(raw) == 0 && MilliJouleSum(raw, divisor) == 0;
    }
  }

  /** The millijoules reported over a run account for last minus first, up to the floors. */
  lemma MilliJoulesConserved(energy: seq<nat>, divisor: u32)
    requires divisor != 0
    requires |energy| >= 1 && Monotone(energy) && StepsFit(energy)
    ensures energy[0] <= energy[|energy| - 1]
    ensures LossWithin((energy[|energy| - 1] - energy[0]) * 1000, MilliJouleSum(Raw(energy), divisor), divisor, |energy| - 1)
  {
    EnergyConserved(energy);
    MilliJouleLoss(Raw(energy), divisor);
  }

  /** Over n intervals the floors report at most the true energy, and less than one millijoule per interval below it. */
  ghost predicate LossWithin(sum: int, floors: nat, divisor: nat, n: nat) {
    0 <= sum - divisor * floors <= n * (divisor - 1)
  }

  lemma LossAdds(sum: int, step: nat, divisor: nat, floors: nat, mj: nat, n: nat)
    requires divisor > 0 && LossWithin(sum, floors, divisor, n)
    requires mj == step / divisor
    ensures LossWithin(sum + step, floors + mj, divisor, n + 1)
  {
    DivBounds(step, divisor);
    assert divisor * (floors + mj) == divisor * floors + mj * divisor;
    assert (n + 1) * (divisor - 1) == n * (divisor - 1) + (divisor - 1);
    assert (mj + 1) * divisor == mj * divisor + divisor;
  }
}
