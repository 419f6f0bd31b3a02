/**
  The driver's reply as its reader decodes it: every entry by position, name
  text, type and unit code, its value in terms of the samples behind it, and
  the sensor it becomes. Codes and units are written out as the header shared
  with the client has them.
 */
module DriverReadings {
  import opened Words
  import opened CoreName
  import opened DeltaMetrics
  import opened CpuDriver
  import opened DeltaRuns
  import opened SensorTable
  import opened DriverSensors

  /** An entry as its reader has it: the name is the C string in the name array. */
  datatype Reading = Reading(name: string, value: int, mtype: int, unit: int, cpuId: int)

  function Read(e: CpuData): Reading {
    Reading(CString(e.name), e.value, e.mtype, e.unit, e.cpuId)
  }

  // ------------------------------------------------------ entries of a reply

  lemma CoreEntryReads(value: u32, idx: nat, suffix: string, mtype: u16, unit: u16)
    requires MetricSuffix(suffix)
    ensures Read(CoreEntry(value, idx, suffix, mtype, unit)) == Reading(CoreText(idx, suffix), value, mtype, unit, idx % 65536)
  {
    CoreNameReads(idx, suffix);
  }

  lemma OwnEntry(cfg: Config, cores: seq<CoreDelta>, pkg: EnergySlot, pp0: EnergySlot, io: Ioctl, k: nat, m: nat)
    requires k < |io.cores| && io.cores[k].reachable && m < cfg.PerCore()
    ensures var reply, at := Reply(cfg, cores, pkg, pp0, io), StartOf(cfg, io.cores, k) + m;
            at < |reply| && reply[at] == CoreEntries(cfg, cores, k, io.cores[k])[m]
  {
    EntryOfCore(cfg, cores, io.cores, k, m);
  }

  /** Each reachable Intel core has temperature, VID, clock and load, in this order, after the cores before it. */
  lemma IntelCoreReads(cfg: Config, cores: seq<CoreDelta>, pkg: EnergySlot, pp0: EnergySlot, io: Ioctl, k: nat)
    requires !cfg.amd && k < |io.cores| && io.cores[k].reachable
    ensures var reply, at, s := Reply(cfg, cores, pkg, pp0, io), 4 * Reachable(io.cores[..k]), io.cores[k];
            && at + 4 <= |reply|
            && Read(reply[at]) == Reading(CoreText(k, "Temp"), s.temp, 0, 1, k % 65536)
            && Read(reply[at + 1]) == Reading(CoreText(k, "VID"), s.vid, 1, 2, k % 65536)
            && Read(reply[at + 2]) == Reading(CoreText(k, "Clock"), s.clock, 2, 3, k % 65536)
            && Read(reply[at + 3]) == Reading(CoreText(k, "Load"), reply[at + 3].value, 3, 4, k % 65536)
  {
    var s := io.cores[k];
    OwnEntry(cfg, cores, pkg, pp0, io, k, 0);
    OwnEntry(cfg, cores, pkg, pp0, io, k, 1);
    OwnEntry(cfg, cores, pkg, pp0, io, k, 2);
    OwnEntry(cfg, cores, pkg, pp0, io, k, 3);
    CoreEntryReads(s.temp, k, "Temp", 0, 1);
    CoreEntryReads(s.vid, k, "VID", 1, 2);
    CoreEntryReads(s.clock, k, "Clock", 2, 3);
    CoreEntryReads(if k < |cores| then LoadValue(cfg, cores[k], s) else 0, k, "Load", 3, 4);
  }

  /** Each reachable AMD core has clock, load and power. */
  lemma AmdCoreReads(cfg: Config, cores: seq<CoreDelta>, pkg: EnergySlot, pp0: EnergySlot, io: Ioctl, k: nat)
    requires cfg.amd && k < |io.cores| && io.cores[k].reachable
    ensures var reply, at, s := Reply(cfg, cores, pkg, pp0, io), 3 * Reachable(io.cores[..k]), io.cores[k];
            && at + 3 <= |reply|
            && Read(reply[at]) == Reading(CoreText(k, "Clock"), s.clock, 2, 3, k % 65536)
            && Read(reply[at + 1]) == Reading(CoreText(k, "Load"), reply[at + 1].value, 3, 4, k % 65536)
            && Read(reply[at + 2]) == Reading(CoreText(k, "Power"), reply[at + 2].value, 4, 5, k % 65536)
  {
    var s := io.cores[k];
    OwnEntry(cfg, cores, pkg, pp0, io, k, 0);
    OwnEntry(cfg, cores, pkg, pp0, io, k, 1);
    OwnEntry(cfg, cores, pkg, pp0, io, k, 2);
    CoreEntryReads(s.clock, k, "Clock", 2, 3);
    CoreEntryReads(if k < |cores| then LoadValue(cfg, cores[k], s) else 0, k, "Load", 3, 4);
    CoreEntryReads(if k < |cores| then CorePowerValue(cfg, AfterLoad(cfg, cores[k], s), s) else 0, k, "Power", 4, 5);
  }

  /** After the cores the Intel package: its temperature and its two powers, as far as the processor has them, and nothing else. */
  lemma IntelPackageReads(cfg: Config, cores: seq<CoreDelta>, pkg: EnergySlot, pp0: EnergySlot, io: Ioctl)
    requires !cfg.amd
    ensures var reply, at := Reply(cfg, cores, pkg, pp0, io), 4 * Reachable(io.cores);
            var power := at + if cfg.hasPkgTherm then 1 else 0;
            && |reply| == power + (if cfg.hasRapl then 2 else 0)
            && (cfg.hasPkgTherm ==> Read(reply[at]) == Reading("Package Temp", io.pkg.tdie, 0, 1, 65535))
            && (cfg.hasRapl ==> Read(reply[power]) == Reading("Package Power", reply[power].value, 4, 5, 65535)
                                && Read(reply[power + 1]) == Reading("Core Domain Power", reply[power + 1].value, 4, 5, 65535))
  {
    PerCoreCount(cfg, cores, io.cores);
    PkgNameReads("Package Temp");
    PkgNameReads("Package Power");
    PkgNameReads("Core Domain Power");
  }

  /** After the cores the AMD package: temperature, the two voltages and the power. */
  lemma AmdPackageReads(cfg: Config, cores: seq<CoreDelta>, pkg: EnergySlot, pp0: EnergySlot, io: Ioctl)
    requires cfg.amd
    ensures var reply, at := Reply(cfg, cores, pkg, pp0, io), 3 * Reachable(io.cores);
            && |reply| == at + 4
            && Read(reply[at]) == Reading("Tdie Temp", io.pkg.tdie, 0, 1, 65535)
            && Read(reply[at + 1]) == Reading("Core Voltage", io.pkg.coreVoltage, 1, 2, 65535)
            && Read(reply[at + 2]) == Reading("SoC Voltage", io.pkg.socVoltage, 1, 2, 65535)
            && Read(reply[at + 3]) == Reading("Package Power", reply[at + 3].value, 4, 5, 65535)
  {
    PerCoreCount(cfg, cores, io.cores);
    PkgNameReads("Tdie Temp");
    PkgNameReads("Core Voltage");
    PkgNameReads("SoC Voltage");
    PkgNameReads("Package Power");
  }

  // ------------------------------------------------------------ rate values

  /** Where the load of core k lies. */
  function LoadAt(cfg: Config, io: Ioctl, k: nat): nat
    requires k < |io.cores|
  {
    if cfg.amd then 3 * Reachable(io.cores[..k]) + 1 else 4 * Reachable(io.cores[..k]) + 3
  }

  /**
    The load of two successive samples of unbounded counters: MPERF cycles in
    percent of TSC cycles, rounded down and at most 100; only a quotient of
    2^32 or more is cut to its low 32 bits first.
   */
  lemma LoadReads(cfg: Config, procs: nat, run: seq<Ioctl>, io: Ioctl, k: nat, mperf0: nat, mperf1: nat, tsc0: nat, tsc1: nat)
    requires k < |io.cores| && io.cores[k].reachable
    requires LastSample(run, k).Some? ==>
      var p := LastSample(run, k).value; p.mperf == mperf0 % TWO64 && p.tsc == tsc0 % TWO64
    requires io.cores[k].mperf == mperf1 % TWO64 && io.cores[k].tsc == tsc1 % TWO64
    requires mperf0 <= mperf1 && (mperf1 - mperf0) * 100 < TWO64 && tsc0 <= tsc1 < tsc0 + TWO64
    ensures var reply, at := ReplyAfter(cfg, procs, run, io), LoadAt(cfg, io, k);
            && at < |reply|
            && (reply[at].value as int) == if !cfg.hasMperf || k >= procs || LastSample(run, k).None? || tsc0 == tsc1 then 0
                                           else Min(100, (mperf1 - mperf0) * 100 / (tsc1 - tsc0) % 0x1_0000_0000)
  {
    PerCoreCount(cfg, RunCores(cfg, procs, run), io.cores[..k]);
    LoadOfLastTwo(cfg, procs, run, io, k);
    LoadOfCounters(mperf0, mperf1, tsc0, tsc1);
  }

  lemma LoadOfCounters(mperf0: nat, mperf1: nat, tsc0: nat, tsc1: nat)
    requires mperf0 <= mperf1 && (mperf1 - mperf0) * 100 < TWO64 && tsc0 <= tsc1 < tsc0 + TWO64
    ensures LoadPercent(mperf0 % TWO64, tsc0 % TWO64, mperf1 % TWO64, tsc1 % TWO64) as int
         == if tsc0 == tsc1 then 0 else Min(100, (mperf1 - mperf0) * 100 / (tsc1 - tsc0) % 0x1_0000_0000)
  {
    StepsOf(mperf0, mperf1, tsc0, tsc1);
    LoadOfSteps(mperf1 - mperf0, tsc1 - tsc0);
  }

  lemma StepsOf(mperf0: nat, mperf1: nat, tsc0: nat, tsc1: nat)
    requires mperf0 <= mperf1 < mperf0 + TWO64 && tsc0 <= tsc1 < tsc0 + TWO64
    ensures LoadPercent(mperf0 % TWO64, tsc0 % TWO64, mperf1 % TWO64, tsc1 % TWO64) == LoadOf(mperf1 - mperf0, tsc1 - tsc0)
  {
    WrapSub64(mperf0, mperf1);
    WrapSub64(tsc0, tsc1);
  }

  lemma LoadOfSteps(mperf: u64, tsc: u64)
    requires mperf * 100 < TWO64
    ensures LoadOf(mperf, tsc) as int == if tsc == 0 then 0 else Min(100, mperf * 100 / tsc % 0x1_0000_0000)
  {
    TruncId64(mperf * 100);
  }

  /** Time between two readings of the performance counter, in whole milliseconds. */
  lemma TimeOf(freq: i64, qpc0: i64, qpc1: i64)
    requires freq > 0 && qpc0 <= qpc1 && (qpc1 - qpc0) * 1000 < TWO64
    ensures TimeMs(freq, qpc1, qpc0) == (qpc1 - qpc0) * 1000 / freq
  {
    TruncId64(qpc1 - qpc0);
    TruncId64((qpc1 - qpc0) * 1000);
    TruncId64(freq);
  }

  /**
    A value in milliwatts for so much energy, in units of 1/divisor joule, over
    ms milliseconds: 0 over none; otherwise two rounded-down divisions and the
    cast to 32 bits, so that it never exceeds the true power and falls short of
    it by less than 1 + 1000/ms mW exactly when the quotient survives the cast.
   */
  ghost predicate PowerShown(value: int, energy: nat, divisor: nat, ms: nat)
    requires divisor > 0
  {
    if ms == 0 then value == 0
    else
      && value == energy * 1000 / divisor * 1000 / ms % 0x1_0000_0000
      && (value as real <= (energy * 1_000_000) as real / divisor as real / ms as real < value as real + 1.0 + 1000.0 / ms as real
          <==> energy * 1000 / divisor * 1000 / ms < 0x1_0000_0000)
  }

  /** Two states of an unbounded energy counter, the registers that show their low 32 bits, and the clock beside them. */
  ghost predicate Readings(freq: i64, energy0: nat, energy1: nat, raw0: int, raw1: int, qpc0: i64, qpc1: i64) {
    && energy0 <= energy1 < energy0 + 0x1_0000_0000
    && raw0 % 0x1_0000_0000 == energy0 % 0x1_0000_0000 && raw1 % 0x1_0000_0000 == energy1 % 0x1_0000_0000
    && Timely(freq, qpc0, qpc1)
  }

  /** The clock did not go back, and its step in thousandths still has 64 bits. */
  ghost predicate Timely(freq: i64, qpc0: i64, qpc1: i64) {
    freq > 0 && qpc0 <= qpc1 && (qpc1 - qpc0) * 1000 < 0x1_0000_0000_0000_0000
  }

  /** The value shows the power of any counter of which these are two readings. */
  ghost predicate Measures(value: int, cfg: Config, raw0: int, qpc0: i64, raw1: int, qpc1: i64)
    requires cfg.divisor > 0
  {
    forall energy0: nat, energy1: nat | Readings(cfg.freq, energy0, energy1, raw0, raw1, qpc0, qpc1) ::
      PowerShown(value, energy1 - energy0, cfg.divisor, (qpc1 - qpc0) * 1000 / cfg.freq)
  }

  lemma PowerOfReadings(cfg: Config, raw0: int, qpc0: i64, raw1: int, qpc1: i64)
    requires cfg.divisor > 0
    ensures Measures(PowerMilliwatts(cfg.divisor, cfg.freq, Trunc32(raw1), Trunc32(raw0), qpc1, qpc0, true), cfg, raw0, qpc0, raw1, qpc1)
  {
    if Timely(cfg.freq, qpc0, qpc1) { PowerOfTwo(cfg, raw0, qpc0, raw1, qpc1); }
    MeasuresStep(PowerMilliwatts(cfg.divisor, cfg.freq, Trunc32(raw1), Trunc32(raw0), qpc1, qpc0, true), cfg, raw0, qpc0, raw1, qpc1);
  }

  lemma PowerOfTwo(cfg: Config, raw0: int, qpc0: i64, raw1: int, qpc1: i64)
    requires cfg.divisor > 0 && Timely(cfg.freq, qpc0, qpc1)
    ensures PowerShown(PowerMilliwatts(cfg.divisor, cfg.freq, Trunc32(raw1), Trunc32(raw0), qpc1, qpc0, true),
                       Trunc32(raw1 - raw0), cfg.divisor, (qpc1 - qpc0) * 1000 / cfg.freq)
  {
    var delta, ms := EnergyDelta(Trunc32(raw1), Trunc32(raw0)), TimeMs(cfg.freq, qpc1, qpc0);
    TimeOf(cfg.freq, qpc0, qpc1);
    DeltaOf(raw0, raw1);
    if ms > 0 { PowerOfStep(delta, cfg.divisor, ms); }
  }

  lemma DeltaOf(raw0: int, raw1: int)
    ensures EnergyDelta(Trunc32(raw1), Trunc32(raw0)) == Trunc32(raw1 - raw0)
  {
    EnergyDeltaIsModular(Trunc32(raw1), Trunc32(raw0));
    StepOf32(raw0, raw1);
  }

  lemma StepOf32(raw0: int, raw1: int)
    ensures Trunc32(Trunc32(raw1) - Trunc32(raw0)) == Trunc32(raw1 - raw0)
  {}

  lemma StepOf(energy0: nat, energy1: nat, raw0: int, raw1: int)
    requires energy0 <= energy1 < energy0 + 0x1_0000_0000
    requires raw0 % 0x1_0000_0000 == energy0 % 0x1_0000_0000 && raw1 % 0x1_0000_0000 == energy1 % 0x1_0000_0000
    ensures Trunc32(raw1 - raw0) == energy1 - energy0
  {}

  /** The step of the counter is that of its low 32 bits. */
  lemma MeasuresStep(value: int, cfg: Config, raw0: int, qpc0: i64, raw1: int, qpc1: i64)
    requires cfg.divisor > 0
    requires Timely(cfg.freq, qpc0, qpc1) ==> PowerShown(value, Trunc32(raw1 - raw0), cfg.divisor, (qpc1 - qpc0) * 1000 / cfg.freq)
    ensures Measures(value, cfg, raw0, qpc0, raw1, qpc1)
  {
    forall energy0: nat, energy1: nat | Readings(cfg.freq, energy0, energy1, raw0, raw1, qpc0, qpc1)
      ensures PowerShown(value, energy1 - energy0, cfg.divisor, (qpc1 - qpc0) * 1000 / cfg.freq)
    {
      StepOf(energy0, energy1, raw0, raw1);
    }
  }

  lemma PowerOfStep(delta: u32, divisor: u32, ms: u64)
    requires divisor > 0 && ms > 0
    ensures PowerShown(PowerOf(delta, divisor, ms), delta, divisor, ms)
  {
    PowerErrorBound(delta, divisor, ms);
    PowerFits(delta, divisor);
    TruncId64(MilliJoules(delta, divisor) * 1000);
    TrueQuotient(delta, divisor, ms);
  }

  lemma TrueQuotient(delta: u32, divisor: u32, ms: u64)
    requires divisor > 0 && ms > 0
    ensures TruePower(delta, divisor, ms) == (delta * 1_000_000) as real / divisor as real / ms as real
  {
    assert (divisor * ms) as real == divisor as real * ms as real;
    DivTwice((delta * 1_000_000) as real, divisor as real, ms as real);
  }

  lemma DivTwice(n: real, a: real, b: real)
    requires a > 0.0 && b > 0.0
    ensures a * b > 0.0 && n / a / b == n / (a * b)
  {
    var q := n / a / b;
    assert q * b == n / a && (n / a) * a == n;
    assert q * (a * b) == n;
    assert n / (a * b) * (a * b) == n;
  }

  /** Where the power of AMD core k lies. */
  function CorePowerAt(io: Ioctl, k: nat): nat
    requires k < |io.cores|
  {
    3 * Reachable(io.cores[..k]) + 2
  }

  function PackagePowerAt(cfg: Config, io: Ioctl): nat {
    if cfg.amd then 3 * Reachable(io.cores) + 3
    else 4 * Reachable(io.cores) + if cfg.hasPkgTherm then 1 else 0
  }

  /** Package power: 0 on the first collection and where it is not measured, otherwise that between the last two. */
  lemma PackagePowerReads(cfg: Config, procs: nat, run: seq<Ioctl>, io: Ioctl)
    requires cfg.amd || cfg.hasRapl
    ensures var reply, at := ReplyAfter(cfg, procs, run, io), PackagePowerAt(cfg, io);
            && at < |reply|
            && if run == [] || cfg.divisor == 0 || cfg.freq == 0 || (cfg.amd && (!cfg.zen || cfg.freq < 0)) then reply[at].value == 0
               else
                 var p, s := run[|run| - 1].pkg, io.pkg;
                 Measures(reply[at].value, cfg, p.pkgEnergy, p.pkgQpc, s.pkgEnergy, s.pkgQpc)
  {
    PerCoreCount(cfg, RunCores(cfg, procs, run), io.cores);
    PackagePowerOfLastTwo(cfg, procs, run, io);
    if run != [] && cfg.divisor > 0 {
      var p := run[|run| - 1].pkg;
      PowerOfReadings(cfg, p.pkgEnergy, p.pkgQpc, io.pkg.pkgEnergy, io.pkg.pkgQpc);
    }
  }

  /** The same for the power of Intel's core domain, the last entry. */
  lemma CoreDomainPowerReads(cfg: Config, procs: nat, run: seq<Ioctl>, io: Ioctl)
    requires !cfg.amd && cfg.hasRapl
    ensures var reply := ReplyAfter(cfg, procs, run, io);
            && reply != []
            && if run == [] || cfg.divisor == 0 || cfg.freq == 0 then reply[|reply| - 1].value == 0
               else
                 var p, s := run[|run| - 1].pkg, io.pkg;
                 Measures(reply[|reply| - 1].value, cfg, p.pp0Energy, p.pp0Qpc, s.pp0Energy, s.pp0Qpc)
  {
    CoreDomainPowerOfLastTwo(cfg, procs, run, io);
    if run != [] && cfg.divisor > 0 {
      var p := run[|run| - 1].pkg;
      PowerOfReadings(cfg, p.pp0Energy, p.pp0Qpc, io.pkg.pp0Energy, io.pkg.pp0Qpc);
    }
  }

  /** And for an AMD core, whose first reading is set against an empty counter at time zero. */
  lemma AmdCorePowerReads(cfg: Config, procs: nat, run: seq<Ioctl>, io: Ioctl, k: nat)
    requires cfg.amd && k < |io.cores| && io.cores[k].reachable
    ensures var reply, at, s := ReplyAfter(cfg, procs, run, io), CorePowerAt(io, k), io.cores[k];
            && at < |reply|
            && if !cfg.zen || !cfg.hasMperf || k >= procs || cfg.divisor == 0 || cfg.freq <= 0 then reply[at].value == 0
               else match LastSample(run, k)
                 case None => Measures(reply[at].value, cfg, 0, 0, s.energy, s.qpc)
                 case Some(p) => Measures(reply[at].value, cfg, p.energy, p.qpc, s.energy, s.qpc)
  {
    PerCoreCount(cfg, RunCores(cfg, procs, run), io.cores[..k]);
    AmdCorePower(cfg, procs, run, io, k);
    CorePowerIs(cfg, procs, k, LastSample(run, k), io.cores[k]);
  }

  lemma CorePowerIs(cfg: Config, procs: nat, k: nat, before: Option<CoreSample>, s: CoreSample)
    ensures var value := CorePowerBetween(cfg, procs, k, before, s);
            if !cfg.zen || !cfg.hasMperf || k >= procs || cfg.divisor == 0 || cfg.freq <= 0 then value == 0
            else match before
              case None => Measures(value, cfg, 0, 0, s.energy, s.qpc)
              case Some(p) => Measures(value, cfg, p.energy, p.qpc, s.energy, s.qpc)
  {
    if cfg.divisor > 0 {
      match before
      case None => PowerOfReadings(cfg, 0, 0, s.energy, s.qpc);
      case Some(p) => PowerOfReadings(cfg, p.energy, p.qpc, s.energy, s.qpc);
    }
  }

  /** The entries before a position all fit the buffer, the cursor being 16 bits wide. */
  predicate Reached(length: u32, at: nat) {
    12 + 44 * (if at <= 65536 then at else 65536) <= length
  }

  /**
    When a collection is cut short, a core's counters are sampled exactly as
    far as it came: those behind an entry if and only if all entries before
    that one fit.
   */
  lemma SampledAsFarAsItFits(cfg: Config, length: u32, cores: seq<CoreDelta>, io: Ioctl, k: nat)
    requires k < |cores| && k < |io.cores| && io.cores[k].reachable
    ensures var st, before, s := CoreNow(cfg, length, cores, io.cores, k), cores[k], io.cores[k];
            && (if cfg.hasMperf && Reached(length, LoadAt(cfg, io, k))
                then st.valid && st.prevMperf == s.mperf && st.prevTsc == s.tsc
                else st.valid == before.valid && st.prevMperf == before.prevMperf && st.prevTsc == before.prevTsc)
            && (if cfg.amd && cfg.zen && Reached(length, CorePowerAt(io, k))
                then st.prevEnergy == s.energy % 0x1_0000_0000 && st.prevQpc == s.qpc
                else st.prevEnergy == before.prevEnergy && st.prevQpc == before.prevQpc)
  {
    PerCoreCount(cfg, cores, io.cores[..k]);
  }

  /** The same for the energy domains of the package. */
  lemma PackageSampledAsFarAsItFits(cfg: Config, length: u32, cores: seq<CoreDelta>, pkg: EnergySlot, pp0: EnergySlot, io: Ioctl)
    ensures var at, s := |PerCoreReply(cfg, cores, io.cores)|, io.pkg;
            && PkgWithin(cfg, length, at, pkg, s)
               == (if (if cfg.amd then cfg.zen else cfg.hasRapl) && Reached(length, PackagePowerAt(cfg, io))
                   then EnergySlot(s.pkgEnergy % 0x1_0000_0000, s.pkgQpc, true) else pkg)
            && Pp0Within(cfg, length, at, pp0, s)
               == (if !cfg.amd && cfg.hasRapl && Reached(length, PackagePowerAt(cfg, io) + 1)
                   then EnergySlot(s.pp0Energy % 0x1_0000_0000, s.pp0Qpc, true) else pp0)
  {
    PerCoreCount(cfg, cores, io.cores);
  }

  // --------------------------------------------------------- announced sizes

  /** What a refused caller is told to bring, where it has 32 bits. */
  lemma AnnouncedBytes(cfg: Config, procs: u32)
    ensures !cfg.amd && 12 + 44 * (4 * procs + 3) < 0x1_0000_0000 ==> RequiredSize(cfg, procs) == 12 + 44 * (4 * procs + 3)
    ensures cfg.amd && 12 + 44 * (3 * procs + 4) < 0x1_0000_0000 ==> RequiredSize(cfg, procs) == 12 + 44 * (3 * procs + 4)
  {
    assert RequiredSize(cfg, procs) == Trunc32(12 + Trunc32(cfg.PerCore() * procs + cfg.Aggregate()) * 44);
  }

  /**
    Each way to complete a request, by its own condition: success, a buffer too
    short for the header, one that cannot be had, too little room, or a request
    of some other kind or for the other vendor.
   */
  lemma OutcomeExactly(cfg: Config, length: u32, io: Ioctl, count: nat)
    requires |io.cores| < TWO32
    ensures var outcome, announced := Outcome(cfg, length, io, count), RequiredSize(cfg, |io.cores|);
            var vendor := io.cpu == (if cfg.amd then Amd else Intel);
            && (outcome == Success <==>
                  io.isGetData && io.retrieved && vendor && 12 <= length && announced <= length && Reached(length, count))
            && (outcome == BufferTooSmall <==> io.isGetData && length < 12)
            && (outcome == NotRetrieved <==> io.isGetData && 12 <= length && !io.retrieved)
            && (outcome == BufferOverflow <==>
                  io.isGetData && io.retrieved && 12 <= length && (length < announced || (vendor && !Reached(length, count))))
            && (outcome == InvalidDeviceRequest <==>
                  !io.isGetData || (io.retrieved && 12 <= length && announced <= length && !vendor))
  {}

  // ------------------------------------------------- the sensors that result

  /** A driver entry on a table: its name under the sensor type of its code, in base units; other codes change nothing. */
  lemma EntryBecomes(table: seq<Sensor>, e: CpuData)
    requires Unique(Keys(table))
    ensures var after, name := ApplyAll(table, EntryWrites([e])), CString(e.name);
            var value := if e.unit == 5 || e.unit == 2 then e.value as real / 1000.0 else e.value as real;
            var stype := match e.mtype
              case 0 => Some(TEMPERATURE) case 1 => Some(VOLTAGE) case 2 => Some(CLOCK)
              case 3 => Some(USAGE) case 4 => Some(POWER) case _ => None;
            if stype.None? then after == table
            else forall key :: Lookup(after, key) == if key == Key(name, stype.value) then Some(value) else Lookup(table, key)
  {
    assert [e][..0] == [];
    AppendEntry(table, [], e);
    assert EntryWrites([e]) == [] + EntryWrite(e);
    assert ApplyAll(table, []) == table;
    if TypeOf(e.mtype).Some? {
      UpsertRefines(table, Write(Key(CString(e.name), TypeOf(e.mtype).value), Scaled(e)));
    }
  }

  lemma {:induction false} LastOfDistinct(writes: seq<Write>, k: nat)
    requires k < |writes| && DistinctWriteKeys(writes)
    ensures LastWrite(writes, writes[k].key) == Some(writes[k].value)
  {
    var n := |writes| - 1;
    if k < n { LastOfDistinct(writes[..n], k); }
  }

  /** A reply the client can be given whole, no two entries of one key. */
  ghost predicate Clear(reply: seq<CpuData>) {
    |reply| < 0x1_0000 && Typed(reply) && DistinctKeys(reply)
  }

  lemma ReplyIsClear(cfg: Config, cores: seq<CoreDelta>, pkg: EnergySlot, pp0: EnergySlot, io: Ioctl)
    requires NoClash(io.cores) && EntryCount(cfg, io) < 0x1_0000
    ensures Clear(Reply(cfg, cores, pkg, pp0, io))
  {
    ReplyCount(cfg, cores, pkg, pp0, io);
    AllVisible(cfg, io);
    VisibleKeys(cfg, cores, pkg, pp0, io);
  }

  ghost function Fetched(table: seq<Sensor>, reply: seq<CpuData>): seq<Sensor> {
    ApplyAll(table, EntryWrites(Shown(reply)))
  }

  /** A reading on the table: its name under the sensor type of its code, its value in base units. */
  ghost predicate Shows(table: seq<Sensor>, r: Reading) {
    var value := if r.unit == 5 || r.unit == 2 then r.value as real / 1000.0 else r.value as real;
    match r.mtype
    case 0 => Lookup(table, Key(r.name, TEMPERATURE)) == Some(value)
    case 1 => Lookup(table, Key(r.name, VOLTAGE)) == Some(value)
    case 2 => Lookup(table, Key(r.name, CLOCK)) == Some(value)
    case 3 => Lookup(table, Key(r.name, USAGE)) == Some(value)
    case 4 => Lookup(table, Key(r.name, POWER)) == Some(value)
    case _ => false
  }

  lemma LookupAfterFetch(table: seq<Sensor>, reply: seq<CpuData>, at: nat)
    requires Unique(Keys(table)) && Clear(reply) && at < |reply|
    ensures Lookup(Fetched(table, reply), KeyOf(reply[at])) == Some(Scaled(reply[at]))
  {
    var writes := EntryWrites(reply);
    WritesOfTyped(reply);
    assert DistinctWriteKeys(writes);
    LastOfDistinct(writes, at);
    TableRefinesMap(table, writes);
  }

  lemma ReplyShows(table: seq<Sensor>, reply: seq<CpuData>)
    requires Unique(Keys(table)) && Clear(reply)
    ensures forall at :: 0 <= at < |reply| ==> Shows(Fetched(table, reply), Read(reply[at]))
  {
    forall at | 0 <= at < |reply| ensures Shows(Fetched(table, reply), Read(reply[at])) {
      LookupAfterFetch(table, reply, at);
    }
  }

  /** Where no names clash, a fetch shows every entry of the reply, whatever the table held. */
  lemma FetchShows(table: seq<Sensor>, cfg: Config, cores: seq<CoreDelta>, pkg: EnergySlot, pp0: EnergySlot, io: Ioctl)
    requires Unique(Keys(table)) && NoClash(io.cores) && EntryCount(cfg, io) < 0x1_0000
    ensures var reply := Reply(cfg, cores, pkg, pp0, io);
            forall at :: 0 <= at < |reply| ==> Shows(Fetched(table, reply), Read(reply[at]))
  {
    ReplyIsClear(cfg, cores, pkg, pp0, io);
    ReplyShows(table, Reply(cfg, cores, pkg, pp0, io));
  }

  /** So an Intel fetch shows what the hardware answered for each core, in degrees, volts and MHz. */
  lemma IntelFetch(table: seq<Sensor>, cfg: Config, cores: seq<CoreDelta>, pkg: EnergySlot, pp0: EnergySlot, io: Ioctl, k: nat)
    requires !cfg.amd && Unique(Keys(table)) && NoClash(io.cores) && EntryCount(cfg, io) < 0x1_0000
    requires k < |io.cores| && io.cores[k].reachable
    ensures var after, s := Fetched(table, Reply(cfg, cores, pkg, pp0, io)), io.cores[k];
            && Shows(after, Reading(CoreText(k, "Temp"), s.temp, 0, 1, k % 65536))
            && Shows(after, Reading(CoreText(k, "VID"), s.vid, 1, 2, k % 65536))
            && Shows(after, Reading(CoreText(k, "Clock"), s.clock, 2, 3, k % 65536))
  {
    IntelCoreReads(cfg, cores, pkg, pp0, io, k);
    FetchShows(table, cfg, cores, pkg, pp0, io);
  }

  /** And an AMD fetch the die temperature and the two voltages. */
  lemma AmdFetch(table: seq<Sensor>, cfg: Config, cores: seq<CoreDelta>, pkg: EnergySlot, pp0: EnergySlot, io: Ioctl)
    requires cfg.amd && Unique(Keys(table)) && NoClash(io.cores) && EntryCount(cfg, io) < 0x1_0000
    ensures var after := Fetched(table, Reply(cfg, cores, pkg, pp0, io));
            && Shows(after, Reading("Tdie Temp", io.pkg.tdie, 0, 1, 65535))
            && Shows(after, Reading("Core Voltage", io.pkg.coreVoltage, 1, 2, 65535))
            && Shows(after, Reading("SoC Voltage", io.pkg.socVoltage, 1, 2, 65535))
  {
    AmdPackageReads(cfg, cores, pkg, pp0, io);
    FetchShows(table, cfg, cores, pkg, pp0, io);
  }
}
