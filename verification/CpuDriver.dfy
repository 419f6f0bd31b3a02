/**
  The two CPU drivers: per-core and aggregate collection into the caller's
  buffer, with the counter snapshots that survive from one IOCTL to the next.
  Their handlers differ only in the metrics they collect, so one handler is
  parameterised by the vendor. Hardware reads are inputs of the IOCTL.
 */
module CpuDriver {
  import opened Words
  import opened DeltaMetrics
  import opened CoreName

  // ------------------------------------------------------------ wire format

  const HEADER_SIZE: int := 12
  const ENTRY_SIZE: int := 44
  const NAME_SIZE: int := 32

  const METRIC_TEMP: u16 := 0
  const METRIC_VOLTAGE: u16 := 1
  const METRIC_CLOCK_SPEED: u16 := 2
  const METRIC_LOAD: u16 := 3
  const METRIC_POWER: u16 := 4

  const UNIT_DEGREES_C: u16 := 1
  const UNIT_MILLIVOLTS: u16 := 2
  const UNIT_MHZ: u16 := 3
  const UNIT_PERCENT: u16 := 4
  const UNIT_MILLIWATTS: u16 := 5

  const NOT_PER_CORE: u16 := 0xFFFF

  datatype CpuData = CpuData(value: u32, name: seq<char>, mtype: u16, unit: u16, cpuId: u16)

  datatype Header = Header(requiredSize: u32, processorCount: u32, entryCount: u32)

  /** NotRetrieved stands for whatever error the framework gives when it cannot hand over the output buffer. */
  datatype Status = Success | BufferTooSmall | BufferOverflow | InvalidDeviceRequest | NotRetrieved

  datatype Completion = Completion(status: Status, information: u32)

  /** The name array of an entry: the text, cut to leave room for NUL, in a zeroed array. */
  function NameField(text: string): (field: seq<char>)
    ensures |field| == NAME_SIZE
  {
    Fit(text, NAME_SIZE) + seq(NAME_SIZE - |Fit(text, NAME_SIZE)|, _ => NUL)
  }

  /** How many entries fit in a buffer of the given size. */
  function Slots(length: u32): nat {
    if length < HEADER_SIZE then 0 else (length - HEADER_SIZE) / ENTRY_SIZE
  }

  class OutBuffer {
    const length: u32
    const slots: array<CpuData>
    var header: Header

    ghost predicate Valid() {
      slots.Length == Slots(length)
    }

    constructor (length: u32, header: Header)
      ensures Valid() && this.length == length && this.header == header && fresh(slots)
    {
      this.length := length;
      this.header := header;
      this.slots := new CpuData[Slots(length)](_ => CpuData(0, NameField(""), 0, 0, 0));
    }
  }

  // --------------------------------------------------------- configuration

  datatype Vendor = Intel | Amd | Unknown

  /** Set once at load time: detected features, energy divisor, QPC frequency. */
  datatype Config = Config(amd: bool, hasMperf: bool, hasPkgTherm: bool, hasRapl: bool, zen: bool,
                           divisor: u32, freq: i64)
  {
    function PerCore(): nat { if amd then 3 else 4 }
    function Aggregate(): nat { if amd then 4 else 3 }
    function Vendor(): Vendor { if amd then Amd else Intel }
    /** Aggregates actually collected: Intel's depend on the features. */
    function EnabledAggregates(): nat {
      if amd then 4 else (if hasPkgTherm then 1 else 0) + (if hasRapl then 2 else 0)
    }
  }

  /** What the hardware answers for one core during one IOCTL. */
  datatype CoreSample = CoreSample(reachable: bool, temp: u32, vid: u32, clock: u32,
                                   mperf: u64, tsc: u64, energy: u64, qpc: i64)

  datatype PkgSample = PkgSample(tdie: u32, coreVoltage: u32, socVoltage: u32,
                                 pkgEnergy: u64, pkgQpc: i64, pp0Energy: u64, pp0Qpc: i64)

  /** One request: its code, whether its output buffer can be retrieved, and what the hardware answers meanwhile. */
  datatype Ioctl = Ioctl(isGetData: bool, retrieved: bool, cpu: Vendor, cores: seq<CoreSample>, pkg: PkgSample)

  datatype CoreDelta = CoreDelta(prevMperf: u64, prevTsc: u64, prevEnergy: u32, prevQpc: i64, valid: bool)

  datatype EnergySlot = EnergySlot(prevEnergy: u32, prevQpc: i64, valid: bool)

  const ZERO_CORE: CoreDelta := CoreDelta(0, 0, 0, 0, false)
  const ZERO_SLOT: EnergySlot := EnergySlot(0, 0, false)

  // ------------------------------------------------- what one IOCTL computes

  function AfterLoad(cfg: Config, st: CoreDelta, s: CoreSample): CoreDelta {
    if cfg.hasMperf then st.(prevMperf := s.mperf, prevTsc := s.tsc, valid := true) else st
  }

  function AfterPower(cfg: Config, st: CoreDelta, s: CoreSample): CoreDelta {
    if cfg.zen then st.(prevEnergy := Trunc32(s.energy), prevQpc := s.qpc) else st
  }

  function CoreAfter(cfg: Config, st: CoreDelta, s: CoreSample): CoreDelta {
    if cfg.amd then AfterPower(cfg, AfterLoad(cfg, st, s), s) else AfterLoad(cfg, st, s)
  }

  function LoadValue(cfg: Config, st: CoreDelta, s: CoreSample): u32 {
    if cfg.hasMperf && st.valid then LoadPercent(st.prevMperf, st.prevTsc, s.mperf, s.tsc) else 0
  }

  /** st is the state retCoreLoad leaves: its valid flag guards the energy snapshot too. */
  function CorePowerValue(cfg: Config, st: CoreDelta, s: CoreSample): u32 {
    if cfg.zen && st.valid && cfg.freq > 0
    then PowerMilliwatts(cfg.divisor, cfg.freq, Trunc32(s.energy), st.prevEnergy, s.qpc, st.prevQpc, true)
    else 0
  }

  function SlotPower(cfg: Config, slot: EnergySlot, energy: u64, qpc: i64): u32 {
    if cfg.amd && cfg.freq <= 0 then 0
    else PowerMilliwatts(cfg.divisor, cfg.freq, Trunc32(energy), slot.prevEnergy, qpc, slot.prevQpc, slot.valid)
  }

  function SlotAfter(energy: u64, qpc: i64): EnergySlot {
    EnergySlot(Trunc32(energy), qpc, true)
  }

  function CoreEntry(value: u32, idx: nat, suffix: string, mtype: u16, unit: u16): CpuData {
    CpuData(value, NameField(CoreText(idx, suffix)), mtype, unit, Trunc16(idx))
  }

  function PkgEntry(value: u32, text: string, mtype: u16, unit: u16): CpuData {
    CpuData(value, NameField(text), mtype, unit, NOT_PER_CORE)
  }

  /** Load reads 0 for a core beyond the allocated state. */
  function LoadEntry(cfg: Config, cores: seq<CoreDelta>, idx: nat, s: CoreSample): CpuData {
    CoreEntry(if idx < |cores| then LoadValue(cfg, cores[idx], s) else 0, idx, "Load", METRIC_LOAD, UNIT_PERCENT)
  }

  function AmdReadings(cfg: Config, cores: seq<CoreDelta>, idx: nat, s: CoreSample): (r: seq<CpuData>)
    ensures |r| == 2
  {
    [CoreEntry(s.clock, idx, "Clock", METRIC_CLOCK_SPEED, UNIT_MHZ), LoadEntry(cfg, cores, idx, s)]
  }

  function IntelReadings(idx: nat, s: CoreSample): (r: seq<CpuData>)
    ensures |r| == 3
  {
    [CoreEntry(s.temp, idx, "Temp", METRIC_TEMP, UNIT_DEGREES_C),
     CoreEntry(s.vid, idx, "VID", METRIC_VOLTAGE, UNIT_MILLIVOLTS),
     CoreEntry(s.clock, idx, "Clock", METRIC_CLOCK_SPEED, UNIT_MHZ)]
  }

  /** The entries of core idx; beyond the allocated state load and power read 0. */
  function CoreEntries(cfg: Config, cores: seq<CoreDelta>, idx: nat, s: CoreSample): (r: seq<CpuData>)
    ensures |r| == cfg.PerCore()
  {
    if cfg.amd then
      var power := if idx < |cores| then CorePowerValue(cfg, AfterLoad(cfg, cores[idx], s), s) else 0;
      AmdReadings(cfg, cores, idx, s) + [CoreEntry(power, idx, "Power", METRIC_POWER, UNIT_MILLIWATTS)]
    else
      IntelReadings(idx, s) + [LoadEntry(cfg, cores, idx, s)]
  }

  function Reachable(samples: seq<CoreSample>): nat {
    if samples == [] then 0
    else Reachable(samples[..|samples| - 1]) + if samples[|samples| - 1].reachable then 1 else 0
  }

  /** Entries of all reachable cores, in core order. */
  function PerCoreReply(cfg: Config, cores: seq<CoreDelta>, samples: seq<CoreSample>): seq<CpuData> {
    if samples == [] then []
    else
      var n := |samples| - 1;
      PerCoreReply(cfg, cores, samples[..n])
      + if samples[n].reachable then CoreEntries(cfg, cores, n, samples[n]) else []
  }

  function AggregateReply(cfg: Config, pkg: EnergySlot, pp0: EnergySlot, s: PkgSample): (r: seq<CpuData>)
    ensures |r| == cfg.EnabledAggregates()
  {
    var pkgPower := PkgEntry(SlotPower(cfg, pkg, s.pkgEnergy, s.pkgQpc), "Package Power", METRIC_POWER, UNIT_MILLIWATTS);
    if cfg.amd then
      [PkgEntry(s.tdie, "Tdie Temp", METRIC_TEMP, UNIT_DEGREES_C),
       PkgEntry(s.coreVoltage, "Core Voltage", METRIC_VOLTAGE, UNIT_MILLIVOLTS),
       PkgEntry(s.socVoltage, "SoC Voltage", METRIC_VOLTAGE, UNIT_MILLIVOLTS),
       if cfg.zen then pkgPower else pkgPower.(value := 0)]
    else
      (if cfg.hasPkgTherm then [PkgEntry(s.tdie, "Package Temp", METRIC_TEMP, UNIT_DEGREES_C)] else [])
      + if cfg.hasRapl then
          [pkgPower,
           PkgEntry(SlotPower(cfg, pp0, s.pp0Energy, s.pp0Qpc), "Core Domain Power", METRIC_POWER, UNIT_MILLIWATTS)]
        else []
  }

  function Reply(cfg: Config, cores: seq<CoreDelta>, pkg: EnergySlot, pp0: EnergySlot, io: Ioctl): seq<CpuData> {
    PerCoreReply(cfg, cores, io.cores) + AggregateReply(cfg, pkg, pp0, io.pkg)
  }

  function PkgAfter(cfg: Config, pkg: EnergySlot, s: PkgSample): EnergySlot {
    if (if cfg.amd then cfg.zen else cfg.hasRapl) then SlotAfter(s.pkgEnergy, s.pkgQpc) else pkg
  }

  function Pp0After(cfg: Config, pp0: EnergySlot, s: PkgSample): EnergySlot {
    if !cfg.amd && cfg.hasRapl then SlotAfter(s.pp0Energy, s.pp0Qpc) else pp0
  }

  // ------------------------------------------------------------ size arithmetic

  /** The size the handler announces, truncation included. */
  function RequiredSize(cfg: Config, procs: u32): u32 {
    Trunc32(HEADER_SIZE + Trunc32(cfg.PerCore() * procs + cfg.Aggregate()) * ENTRY_SIZE)
  }

  /** The untruncated size of a reply of count entries. */
  function SizeOf(count: nat): nat { HEADER_SIZE + count * ENTRY_SIZE }

  /** Every append up to the count-th succeeds: the cursor, 16 bits wide, never points past the buffer. */
  predicate Fits(length: u32, count: nat) {
    HEADER_SIZE + Min(count, 0x1_0000) * ENTRY_SIZE <= length
  }

  // ---------------------------------------- snapshots when the buffer may be short

  /**
    A core's snapshot when `at` entries precede its own: each rate is sampled
    just before its entry is appended, so only if those before it did fit.
   */
  function CoreWithin(cfg: Config, length: u32, at: nat, st: CoreDelta, s: CoreSample): CoreDelta {
    if cfg.amd then
      var loaded := if Fits(length, at + 1) then AfterLoad(cfg, st, s) else st;
      if Fits(length, at + 2) then AfterPower(cfg, loaded, s) else loaded
    else if Fits(length, at + 3) then AfterLoad(cfg, st, s)
    else st
  }

  function PkgWithin(cfg: Config, length: u32, at: nat, pkg: EnergySlot, s: PkgSample): EnergySlot {
    var before := if cfg.amd then 3 else if cfg.hasPkgTherm then 1 else 0;
    if Fits(length, at + before) then PkgAfter(cfg, pkg, s) else pkg
  }

  function Pp0Within(cfg: Config, length: u32, at: nat, pp0: EnergySlot, s: PkgSample): EnergySlot {
    var before := if cfg.hasPkgTherm then 2 else 1;
    if Fits(length, at + before) then Pp0After(cfg, pp0, s) else pp0
  }

  /** The snapshot of core k after the collection, complete or cut short. */
  function CoreNow(cfg: Config, length: u32, cores: seq<CoreDelta>, samples: seq<CoreSample>, k: nat): CoreDelta
    requires k < |cores|
  {
    if k < |samples| && samples[k].reachable
    then CoreWithin(cfg, length, |PerCoreReply(cfg, cores, samples[..k])|, cores[k], samples[k])
    else cores[k]
  }

  /** Per-core metrics times reachable cores plus the enabled aggregates. */
  function EntryCount(cfg: Config, io: Ioctl): nat {
    cfg.PerCore() * Reachable(io.cores) + cfg.EnabledAggregates()
  }

  /** How the handler completes for a reply of count entries. */
  function Outcome(cfg: Config, length: u32, io: Ioctl, count: nat): Status
    requires |io.cores| < TWO32
  {
    if !io.isGetData then InvalidDeviceRequest
    else if length < HEADER_SIZE then BufferTooSmall
    else if !io.retrieved then NotRetrieved
    else if length < RequiredSize(cfg, |io.cores|) then BufferOverflow
    else if io.cpu != cfg.Vendor() then InvalidDeviceRequest
    else if !Fits(length, count) then BufferOverflow
    else Success
  }

  /** The IOCTLs that come to collect anything. */
  predicate Collects(cfg: Config, length: u32, io: Ioctl)
    requires |io.cores| < TWO32
  {
    && io.isGetData && io.retrieved && io.cpu == cfg.Vendor()
    && Max(HEADER_SIZE, RequiredSize(cfg, |io.cores|)) <= length
  }

  /** The size a refusal announces: that of a full reply, or after a late overflow a core and the aggregates beyond the buffer. */
  function Announced(cfg: Config, length: u32, io: Ioctl): u32
    requires |io.cores| < TWO32
  {
    if Collects(cfg, length, io) then Trunc32(SizeOf(Slots(length) + cfg.PerCore() + cfg.Aggregate()))
    else RequiredSize(cfg, |io.cores|)
  }

  lemma {:induction false} PerCoreCount(cfg: Config, cores: seq<CoreDelta>, samples: seq<CoreSample>)
    ensures |PerCoreReply(cfg, cores, samples)| == cfg.PerCore() * Reachable(samples)
    ensures Reachable(samples) <= |samples|
  {
    if samples != [] {
      var init := samples[..|samples| - 1];
      PerCoreCount(cfg, cores, init);
      assert cfg.PerCore() * (Reachable(init) + 1) == cfg.PerCore() * Reachable(init) + cfg.PerCore();
    }
  }

  lemma ReplyCount(cfg: Config, cores: seq<CoreDelta>, pkg: EnergySlot, pp0: EnergySlot, io: Ioctl)
    ensures |Reply(cfg, cores, pkg, pp0, io)| == EntryCount(cfg, io)
    ensures |Reply(cfg, cores, pkg, pp0, io)| <= cfg.PerCore() * |io.cores| + cfg.Aggregate()
  {
    PerCoreCount(cfg, cores, io.cores);
    EntryCountAtMost(cfg, io);
  }

  /**
    A buffer of the announced size takes every append of any count up to the
    announced one exactly when the sizing does not overflow 32 bits, or wraps
    to a size that holds as many entries as a 16-bit cursor can point at.
   */
  lemma AnnouncedSizeSuffices(cfg: Config, procs: u32)
    ensures (forall count: nat :: count <= cfg.PerCore() * procs + cfg.Aggregate() ==> Fits(RequiredSize(cfg, procs), count))
            <==> SizingHolds(cfg, procs)
  {
    var total := cfg.PerCore() * procs + cfg.Aggregate();
    if !SizingHolds(cfg, procs) { assert !Fits(RequiredSize(cfg, procs), total); }
  }

  /** The caller's side of it: no 32-bit overflow, or a harmless one. */
  predicate SizingHolds(cfg: Config, procs: u32) {
    SizeOf(cfg.PerCore() * procs + cfg.Aggregate()) < TWO32 || RequiredSize(cfg, procs) >= SizeOf(0x1_0000)
  }

  ghost predicate Asks(cfg: Config, io: Ioctl, procs: u32) {
    io.isGetData && io.retrieved && io.cpu == cfg.Vendor() && |io.cores| == procs
  }

  /**
    The late overflow branch: no IOCTL of so many processors reaches it, in
    any driver state and with any buffer that passed the size check, exactly
    under the same condition.
   */
  lemma LateOverflowUnreachable(cfg: Config, procs: u32)
    ensures (forall io, length: u32 :: Asks(cfg, io, procs) && Max(HEADER_SIZE, RequiredSize(cfg, procs)) <= length ==>
               Outcome(cfg, length, io, EntryCount(cfg, io)) == Success)
            <==> SizingHolds(cfg, procs)
  {
    if SizingHolds(cfg, procs) {
      forall io, length: u32 | Asks(cfg, io, procs) && Max(HEADER_SIZE, RequiredSize(cfg, procs)) <= length
        ensures Outcome(cfg, length, io, EntryCount(cfg, io)) == Success
      {
        EntryCountAtMost(cfg, io);
        AnnouncedSizeSuffices(cfg, procs);
        assert Fits(RequiredSize(cfg, procs), EntryCount(cfg, io));
      }
    } else {
      var io := FullIoctl(cfg, procs);
      var length: u32 := Max(HEADER_SIZE, RequiredSize(cfg, procs));
      assert Asks(cfg, io, procs) && Outcome(cfg, length, io, EntryCount(cfg, io)) == BufferOverflow;
    }
  }

  /** An IOCTL in which every core answers. */
  lemma FullIoctl(cfg: Config, procs: u32) returns (io: Ioctl)
    ensures Asks(cfg, io, procs) && EntryCount(cfg, io) >= cfg.PerCore() * procs
  {
    var s := CoreSample(true, 0, 0, 0, 0, 0, 0, 0);
    io := Ioctl(true, true, cfg.Vendor(), seq(procs, _ => s), PkgSample(0, 0, 0, 0, 0, 0, 0));
    AllReachable(io.cores);
  }

  lemma {:induction false} AllReachable(samples: seq<CoreSample>)
    requires forall k :: 0 <= k < |samples| ==> samples[k].reachable
    ensures Reachable(samples) == |samples|
  {
    if samples != [] { AllReachable(samples[..|samples| - 1]); }
  }

  lemma {:induction false} ReachableAtMost(samples: seq<CoreSample>)
    ensures Reachable(samples) <= |samples|
  {
    if samples != [] { ReachableAtMost(samples[..|samples| - 1]); }
  }

  lemma EntryCountAtMost(cfg: Config, io: Ioctl)
    ensures EntryCount(cfg, io) <= cfg.PerCore() * |io.cores| + cfg.Aggregate()
  {
    ReachableAtMost(io.cores);
    MulLe(Reachable(io.cores), |io.cores|, cfg.PerCore());
  }

  /**
    Entries stay in core order: those of core i start right after those of
    the reachable cores before it.
   */
  lemma {:induction false} CoreOrder(cfg: Config, cores: seq<CoreDelta>, samples: seq<CoreSample>, i: nat)
    requires i < |samples| && samples[i].reachable
    ensures var at := |PerCoreReply(cfg, cores, samples[..i])|;
            at + cfg.PerCore() <= |PerCoreReply(cfg, cores, samples)|
            && PerCoreReply(cfg, cores, samples)[at..at + cfg.PerCore()] == CoreEntries(cfg, cores, i, samples[i])
    decreases |samples|
  {
    var n := |samples| - 1;
    if i < n {
      CoreOrder(cfg, cores, samples[..n], i);
      assert samples[..n][..i] == samples[..i];
    }
  }

  /**
    Past 32 bits the announced size can wrap to almost nothing: whatever these
    24,403,223 processors answer, a buffer of 96 bytes passes the size check
    and the collection then overflows it. Not every overflow does harm: with
    24,500,000 processors the wrapped size still takes every append.
   */
  lemma SizingOverflow(io: Ioctl)
    requires var cfg := Config(false, true, true, true, false, 1, 1); Asks(cfg, io, 24_403_223)
    ensures var cfg := Config(false, true, true, true, false, 1, 1);
            && RequiredSize(cfg, |io.cores|) == 96
            && Outcome(cfg, 96, io, EntryCount(cfg, io)) == BufferOverflow && Announced(cfg, 96, io) == 364
            && SizeOf(cfg.PerCore() * 24_500_000 + cfg.Aggregate()) > TWO32 && SizingHolds(cfg, 24_500_000)
  {
    var cfg := Config(false, true, true, true, false, 1, 1);
    assert EntryCount(cfg, io) >= cfg.EnabledAggregates() == 3;
    assert RequiredSize(cfg, 24_403_223) == 96 && RequiredSize(cfg, 24_500_000) == 17_032_848;
  }

  // ------------------------------------------------------------- the driver

  /** The last position below n that is i modulo 2^16. */
  function LatestAt(n: nat, i: nat): (r: nat)
    requires i < n
    ensures r < n && Trunc16(r) == Trunc16(i)
  {
    i + (n - 1 - i) / 0x1_0000 * 0x1_0000
  }

  /** Entries written one by one with a 16-bit cursor: each slot holds the last one that came its way. */
  ghost predicate Written(slots: seq<CpuData>, done: seq<CpuData>) {
    && Min(|done|, 0x1_0000) <= |slots|
    && forall i {:trigger slots[i]} :: 0 <= i < Min(|done|, 0x1_0000) ==> slots[i] == done[LatestAt(|done|, i)]
  }

  lemma WriteOne(slots: seq<CpuData>, done: seq<CpuData>, data: CpuData)
    requires Written(slots, done) && Trunc16(|done|) < |slots| && Min(|done| + 1, 0x1_0000) <= |slots|
    ensures Written(slots[Trunc16(|done|) := data], done + [data])
  {
    var n := |done|;
    var after := slots[Trunc16(n) := data];
    forall i | 0 <= i < Min(n + 1, 0x1_0000) ensures after[i] == (done + [data])[LatestAt(n + 1, i)] {
      LatestStep(n, i);
    }
  }

  lemma LatestStep(n: nat, i: nat)
    requires i < Min(n + 1, 0x1_0000)
    ensures i == Trunc16(n) ==> LatestAt(n + 1, i) == n
    ensures i != Trunc16(n) ==> i < n && LatestAt(n + 1, i) == LatestAt(n, i)
  {}

  /** The entries entry_count, 16 bits wide, leaves visible: all below 65536, beyond that the newest. */
  function Shown(reply: seq<CpuData>): (r: seq<CpuData>)
    ensures |r| == Trunc16(|reply|) && (|reply| < TWO16 ==> r == reply)
  {
    reply[|reply| - Trunc16(|reply|)..]
  }

  /** What the first entry_count slots hold: the newest entries, and all of them below 65536. */
  lemma WrittenTail(slots: seq<CpuData>, done: seq<CpuData>)
    requires Written(slots, done)
    ensures Trunc16(|done|) <= |slots| && slots[..Trunc16(|done|)] == Shown(done)
    ensures |done| < 0x1_0000 ==> done <= slots
  {
    var count := Trunc16(|done|);
    var shown := Shown(done);
    forall i | 0 <= i < count ensures slots[i] == shown[i] {
      LatestInLap(|done|, i);
    }
    SameUpTo(slots, shown, count);
  }

  lemma SameUpTo(slots: seq<CpuData>, shown: seq<CpuData>, count: nat)
    requires |shown| == count <= |slots| && forall i :: 0 <= i < count ==> slots[i] == shown[i]
    ensures slots[..count] == shown && shown <= slots
  {}

  lemma LatestInLap(n: nat, i: nat)
    requires i < Trunc16(n)
    ensures i < n && LatestAt(n, i) == n - Trunc16(n) + i
  {}

  /** The reply collected so far, as the cursor and the buffer show it; the cursor wraps at 16 bits. */
  ghost predicate Filled(buf: OutBuffer, idx: u16, done: seq<CpuData>)
    reads buf, buf.slots
  {
    && buf.Valid() && Fits(buf.length, |done|) && idx == Trunc16(|done|)
    && Written(buf.slots[..], done)
  }

  /** Bounds check and write of one entry; a failure reports the size this entry needs. */
  method TryAddTelemetryData(buf: OutBuffer, capacity: u32, data: CpuData, idx: u16) returns (ok: bool)
    requires buf.Valid() && capacity == buf.length
    modifies buf`header, buf.slots
    ensures ok <==> SizeOf(idx + 1) <= capacity
    ensures ok ==> idx < buf.slots.Length && buf.slots[..] == old(buf.slots[..])[idx := data] && buf.header == old(buf.header)
    ensures !ok ==> buf.slots[..] == old(buf.slots[..])
    ensures !ok ==> buf.header == old(buf.header).(requiredSize := SizeOf(idx + 1))
  {
    var needed := Trunc32(HEADER_SIZE + (idx + 1) * ENTRY_SIZE);
    if needed > capacity {
      buf.header := buf.header.(requiredSize := needed);
      return false;
    }
    buf.slots[idx] := data;
    return true;
  }

  /** Append and advance the cursor, as each metric does. */
  method Append(buf: OutBuffer, data: CpuData, idx: u16, ghost done: seq<CpuData>) returns (ok: bool, next: u16)
    requires Filled(buf, idx, done)
    modifies buf`header, buf.slots
    ensures ok <==> Fits(buf.length, |done| + 1)
    ensures ok ==> Filled(buf, next, done + [data]) && buf.header == old(buf.header)
    ensures !ok ==> buf.Valid() && next == Slots(buf.length)
  {
    if Fits(buf.length, |done| + 1) { WriteOne(buf.slots[..], done, data); }
    ok := TryAddTelemetryData(buf, buf.length, data, idx);
    next := if ok then Trunc16(idx + 1) else idx;
  }

  class Driver {
    const cfg: Config
    /** One snapshot per logical processor counted at load time; null when the pool allocation failed. */
    const coreState: array?<CoreDelta>
    var pkg: EnergySlot
    var pp0: EnergySlot

    ghost function Cores(): seq<CoreDelta>
      reads coreState
    {
      if coreState == null then [] else coreState[..]
    }

    /** DriverEntry: Intel allocates core state only when MPERF is present. */
    constructor (cfg: Config, maxProcs: u32, poolOk: bool)
      ensures this.cfg == cfg && pkg == ZERO_SLOT && pp0 == ZERO_SLOT
      ensures coreState != null <==> poolOk && (cfg.amd || cfg.hasMperf)
      ensures coreState != null ==> fresh(coreState) && coreState[..] == seq(maxProcs, _ => ZERO_CORE)
    {
      this.cfg := cfg;
      pkg, pp0 := ZERO_SLOT, ZERO_SLOT;
      if poolOk && (cfg.amd || cfg.hasMperf) {
        coreState := new CoreDelta[maxProcs](_ => ZERO_CORE);
      } else {
        coreState := null;
      }
    }

    method CoreEntryOf(value: u32, idx: u32, suffix: string, mtype: u16, unit: u16) returns (data: CpuData)
      ensures data == CoreEntry(value, idx, suffix, mtype, unit)
    {
      var name := new char[NAME_SIZE](_ => NUL);
      BuildCoreName(name, NAME_SIZE, idx, suffix);
      assert name[..] == NameField(CoreText(idx, suffix));
      data := CpuData(value, name[..], mtype, unit, Trunc16(idx));
    }

    method RetCoreLoad(idx: u32, s: CoreSample) returns (data: CpuData)
      modifies coreState
      ensures data == CoreEntry(if idx < |old(Cores())| then LoadValue(cfg, old(Cores())[idx], s) else 0,
                                idx, "Load", METRIC_LOAD, UNIT_PERCENT)
      ensures Cores() == if idx < |old(Cores())| then old(Cores())[idx := AfterLoad(cfg, old(Cores())[idx], s)] else old(Cores())
    {
      data := CoreEntryOf(0, idx, "Load", METRIC_LOAD, UNIT_PERCENT);
      if !cfg.hasMperf || coreState == null || idx >= coreState.Length {
        return;
      }
      var state := coreState[idx];
      if state.valid {
        data := data.(value := LoadPercent(state.prevMperf, state.prevTsc, s.mperf, s.tsc));
      }
      coreState[idx] := state.(prevMperf := s.mperf, prevTsc := s.tsc, valid := true);
    }

    /** AMD only; reads the valid flag that RetCoreLoad sets. */
    method RetCorePower(idx: u32, s: CoreSample) returns (data: CpuData)
      modifies coreState
      ensures data == CoreEntry(if idx < |old(Cores())| then CorePowerValue(cfg, old(Cores())[idx], s) else 0,
                                idx, "Power", METRIC_POWER, UNIT_MILLIWATTS)
      ensures Cores() == if idx < |old(Cores())| then old(Cores())[idx := AfterPower(cfg, old(Cores())[idx], s)] else old(Cores())
    {
      data := CoreEntryOf(0, idx, "Power", METRIC_POWER, UNIT_MILLIWATTS);
      if !cfg.zen || coreState == null || idx >= coreState.Length {
        return;
      }
      var state := coreState[idx];
      if state.valid && cfg.divisor > 0 && cfg.freq > 0 {
        var energyDelta := EnergyDelta(Trunc32(s.energy), state.prevEnergy);
        var timeMs := TimeMs(cfg.freq, s.qpc, state.prevQpc);
        if timeMs > 0 {
          data := data.(value := PowerOf(energyDelta, cfg.divisor, timeMs));
        }
      }
      coreState[idx] := state.(prevEnergy := Trunc32(s.energy), prevQpc := s.qpc);
    }

    /** Core state after the first n cores of one IOCTL. */
    ghost predicate Advanced(before: seq<CoreDelta>, length: u32, samples: seq<CoreSample>, n: nat)
      reads coreState
    {
      && |Cores()| == |before|
      && forall k :: 0 <= k < |before| ==>
           Cores()[k] == if k < n then CoreNow(cfg, length, before, samples, k) else before[k]
    }

    /** Within one IOCTL no core strays from the snapshots of before and this IOCTL's sample. */
    ghost predicate Touched(before: seq<CoreDelta>, idx: nat)
      reads coreState
    {
      && |Cores()| == |before|
      && forall k :: 0 <= k < |before| && k != idx ==> Cores()[k] == before[k]
    }

    /** The three readings of an Intel core that need no snapshot. */
    method AppendIntelReadings(buf: OutBuffer, idx: u32, s: CoreSample, cursor: u16, ghost done: seq<CpuData>)
      returns (ok: bool, next: u16)
      requires Filled(buf, cursor, done)
      modifies buf`header, buf.slots
      ensures ok <==> Fits(buf.length, |done| + 3)
      ensures ok ==> Filled(buf, next, done + IntelReadings(idx, s)) && buf.header == old(buf.header)
      ensures !ok ==> buf.Valid() && next == Slots(buf.length)
    {
      var temp := CoreEntryOf(s.temp, idx, "Temp", METRIC_TEMP, UNIT_DEGREES_C);
      ok, next := Append(buf, temp, cursor, done);
      if !ok { return; }
      var vid := CoreEntryOf(s.vid, idx, "VID", METRIC_VOLTAGE, UNIT_MILLIVOLTS);
      ok, next := Append(buf, vid, next, done + [temp]);
      if !ok { return; }
      var clock := CoreEntryOf(s.clock, idx, "Clock", METRIC_CLOCK_SPEED, UNIT_MHZ);
      ok, next := Append(buf, clock, next, done + [temp] + [vid]);
      assert done + [temp] + [vid] + [clock] == done + [temp, vid, clock];
    }

    method ReadPerCoreIntelMetrics(buf: OutBuffer, idx: u32, s: CoreSample, cursor: u16, ghost done: seq<CpuData>)
      returns (ok: bool, next: u16)
      requires !cfg.amd && Filled(buf, cursor, done)
      modifies coreState, buf`header, buf.slots
      ensures Touched(old(Cores()), idx)
      ensures ok <==> Fits(buf.length, |done| + cfg.PerCore())
      ensures ok ==> Filled(buf, next, done + CoreEntries(cfg, old(Cores()), idx, s)) && buf.header == old(buf.header)
      ensures idx < |Cores()| ==> Cores()[idx] == CoreWithin(cfg, buf.length, |done|, old(Cores())[idx], s)
      ensures !ok ==> buf.Valid() && next == Slots(buf.length)
    {
      ok, next := AppendIntelReadings(buf, idx, s, cursor, done);
      if !ok { return; }
      var load := RetCoreLoad(idx, s);
      ok, next := Append(buf, load, next, done + IntelReadings(idx, s));
      assert done + IntelReadings(idx, s) + [load] == done + (IntelReadings(idx, s) + [load]);
    }

    /** Clock and load of an AMD core; load is sampled once the clock entry did fit. */
    method AppendAmdReadings(buf: OutBuffer, idx: u32, s: CoreSample, cursor: u16, ghost done: seq<CpuData>)
      returns (ok: bool, next: u16)
      requires Filled(buf, cursor, done)
      modifies coreState, buf`header, buf.slots
      ensures Touched(old(Cores()), idx)
      ensures ok <==> Fits(buf.length, |done| + 2)
      ensures ok ==> Filled(buf, next, done + AmdReadings(cfg, old(Cores()), idx, s)) && buf.header == old(buf.header)
      ensures idx < |Cores()| ==>
        Cores()[idx] == if Fits(buf.length, |done| + 1) then AfterLoad(cfg, old(Cores())[idx], s) else old(Cores())[idx]
      ensures !ok ==> buf.Valid() && next == Slots(buf.length)
    {
      var clock := CoreEntryOf(s.clock, idx, "Clock", METRIC_CLOCK_SPEED, UNIT_MHZ);
      ok, next := Append(buf, clock, cursor, done);
      if !ok { return; }
      var load := RetCoreLoad(idx, s);
      ok, next := Append(buf, load, next, done + [clock]);
      assert done + [clock] + [load] == done + [clock, load];
    }

    method ReadPerCoreAmdMetrics(buf: OutBuffer, idx: u32, s: CoreSample, cursor: u16, ghost done: seq<CpuData>)
      returns (ok: bool, next: u16)
      requires cfg.amd && Filled(buf, cursor, done)
      modifies coreState, buf`header, buf.slots
      ensures Touched(old(Cores()), idx)
      ensures ok <==> Fits(buf.length, |done| + cfg.PerCore())
      ensures ok ==> Filled(buf, next, done + CoreEntries(cfg, old(Cores()), idx, s)) && buf.header == old(buf.header)
      ensures idx < |Cores()| ==> Cores()[idx] == CoreWithin(cfg, buf.length, |done|, old(Cores())[idx], s)
      ensures !ok ==> buf.Valid() && next == Slots(buf.length)
    {
      ghost var readings := AmdReadings(cfg, Cores(), idx, s);
      ok, next := AppendAmdReadings(buf, idx, s, cursor, done);
      if !ok { return; }
      var power := RetCorePower(idx, s);
      ok, next := Append(buf, power, next, done + readings);
      assert done + readings + [power] == done + (readings + [power]);
    }

    method RetPackagePower(s: PkgSample) returns (data: CpuData)
      modifies this`pkg
      ensures cfg.amd && !cfg.zen ==> data == PkgEntry(0, "Package Power", METRIC_POWER, UNIT_MILLIWATTS) && pkg == old(pkg)
      ensures !cfg.amd || cfg.zen ==>
        data == PkgEntry(SlotPower(cfg, old(pkg), s.pkgEnergy, s.pkgQpc), "Package Power", METRIC_POWER, UNIT_MILLIWATTS)
        && pkg == SlotAfter(s.pkgEnergy, s.pkgQpc)
    {
      data := PkgEntry(0, "Package Power", METRIC_POWER, UNIT_MILLIWATTS);
      if cfg.amd && !cfg.zen { return; }
      var energy := Trunc32(s.pkgEnergy);
      if !cfg.amd || (pkg.valid && cfg.divisor > 0 && cfg.freq > 0) {
        data := data.(value := PowerMilliwatts(cfg.divisor, cfg.freq, energy, pkg.prevEnergy, s.pkgQpc, pkg.prevQpc, pkg.valid));
      }
      pkg := EnergySlot(energy, s.pkgQpc, true);
    }

    method RetCoreDomainPower(s: PkgSample) returns (data: CpuData)
      requires !cfg.amd
      modifies this`pp0
      ensures data == PkgEntry(SlotPower(cfg, old(pp0), s.pp0Energy, s.pp0Qpc), "Core Domain Power", METRIC_POWER, UNIT_MILLIWATTS)
      ensures pp0 == SlotAfter(s.pp0Energy, s.pp0Qpc)
    {
      var energy := Trunc32(s.pp0Energy);
      var value := PowerMilliwatts(cfg.divisor, cfg.freq, energy, pp0.prevEnergy, s.pp0Qpc, pp0.prevQpc, pp0.valid);
      data := PkgEntry(value, "Core Domain Power", METRIC_POWER, UNIT_MILLIWATTS);
      pp0 := EnergySlot(energy, s.pp0Qpc, true);
    }

    method ReadIntelAggregateMetrics(buf: OutBuffer, s: PkgSample, cursor: u16, ghost done: seq<CpuData>)
      returns (ok: bool, next: u16)
      requires !cfg.amd && Filled(buf, cursor, done)
      modifies this`pkg, this`pp0, buf`header, buf.slots
      ensures ok <==> Fits(buf.length, |done| + cfg.EnabledAggregates())
      ensures ok ==> Filled(buf, next, done + AggregateReply(cfg, old(pkg), old(pp0), s)) && buf.header == old(buf.header)
      ensures pkg == PkgWithin(cfg, buf.length, |done|, old(pkg), s)
      ensures pp0 == Pp0Within(cfg, buf.length, |done|, old(pp0), s)
      ensures !ok ==> buf.Valid() && next == Slots(buf.length)
    {
      ok, next := true, cursor;
      ghost var sofar := done;
      if cfg.hasPkgTherm {
        var tdie := PkgEntry(s.tdie, "Package Temp", METRIC_TEMP, UNIT_DEGREES_C);
        ok, next := Append(buf, tdie, next, sofar);
        if !ok { return; }
        sofar := sofar + [tdie];
      }
      if cfg.hasRapl {
        var pkgPower := RetPackagePower(s);
        ok, next := Append(buf, pkgPower, next, sofar);
        if !ok { return; }
        var pp0Power := RetCoreDomainPower(s);
        ok, next := Append(buf, pp0Power, next, sofar + [pkgPower]);
        assert sofar + [pkgPower] + [pp0Power] == sofar + [pkgPower, pp0Power];
        sofar := sofar + [pkgPower, pp0Power];
      }
      assert sofar == done + AggregateReply(cfg, old(pkg), old(pp0), s);
    }

    method ReadAmdAggregateMetrics(buf: OutBuffer, s: PkgSample, cursor: u16, ghost done: seq<CpuData>)
      returns (ok: bool, next: u16)
      requires cfg.amd && Filled(buf, cursor, done)
      modifies this`pkg, buf`header, buf.slots
      ensures ok <==> Fits(buf.length, |done| + cfg.EnabledAggregates())
      ensures ok ==> Filled(buf, next, done + AggregateReply(cfg, old(pkg), pp0, s)) && buf.header == old(buf.header)
      ensures pkg == PkgWithin(cfg, buf.length, |done|, old(pkg), s)
      ensures !ok ==> buf.Valid() && next == Slots(buf.length)
    {
      ghost var entries := AggregateReply(cfg, pkg, pp0, s);
      var tdie := PkgEntry(s.tdie, "Tdie Temp", METRIC_TEMP, UNIT_DEGREES_C);
      ok, next := Append(buf, tdie, cursor, done);
      if !ok { return; }
      ghost var sofar := done + [tdie];
      var coreV := PkgEntry(s.coreVoltage, "Core Voltage", METRIC_VOLTAGE, UNIT_MILLIVOLTS);
      ok, next := Append(buf, coreV, next, sofar);
      if !ok { return; }
      sofar := sofar + [coreV];
      var socV := PkgEntry(s.socVoltage, "SoC Voltage", METRIC_VOLTAGE, UNIT_MILLIVOLTS);
      ok, next := Append(buf, socV, next, sofar);
      if !ok { return; }
      sofar := sofar + [socV];
      var pkgPower := RetPackagePower(s);
      ok, next := Append(buf, pkgPower, next, sofar);
      assert entries == [tdie, coreV, socV, pkgPower];
      assert sofar + [pkgPower] == done + entries;
    }

    method ReadPerCoreMetrics(buf: OutBuffer, idx: u32, s: CoreSample, cursor: u16, ghost done: seq<CpuData>)
      returns (ok: bool, next: u16)
      requires Filled(buf, cursor, done)
      modifies coreState, buf`header, buf.slots
      ensures Touched(old(Cores()), idx)
      ensures ok <==> Fits(buf.length, |done + CoreEntries(cfg, old(Cores()), idx, s)|)
      ensures ok ==> Filled(buf, next, done + CoreEntries(cfg, old(Cores()), idx, s)) && buf.header == old(buf.header)
      ensures idx < |Cores()| ==> Cores()[idx] == CoreWithin(cfg, buf.length, |done|, old(Cores())[idx], s)
      ensures !ok ==> buf.Valid() && next == Slots(buf.length)
    {
      if cfg.amd {
        ok, next := ReadPerCoreAmdMetrics(buf, idx, s, cursor, done);
      } else {
        ok, next := ReadPerCoreIntelMetrics(buf, idx, s, cursor, done);
      }
    }

    /** The core loop of the handler: reachable cores in index order, until an append fails. */
    method ReadCores(buf: OutBuffer, samples: seq<CoreSample>) returns (ok: bool, next: u16)
      requires |samples| < TWO32 && Filled(buf, 0, [])
      modifies coreState, buf`header, buf.slots
      ensures ok <==> Fits(buf.length, |PerCoreReply(cfg, old(Cores()), samples)|)
      ensures ok ==> Filled(buf, next, PerCoreReply(cfg, old(Cores()), samples)) && buf.header == old(buf.header)
      ensures Advanced(old(Cores()), buf.length, samples, |samples|)
      ensures !ok ==> buf.Valid() && next == Slots(buf.length)
    {
      ghost var before := Cores();
      ghost var done := [];
      ok, next := true, 0;
      var i := 0;
      while i < |samples| && ok
        invariant 0 <= i <= |samples| && buf.Valid() && |Cores()| == |before|
        invariant done == PerCoreReply(cfg, before, samples[..i]) && (ok <==> Fits(buf.length, |done|))
        invariant ok ==> Filled(buf, next, done) && buf.header == old(buf.header)
        invariant Advanced(before, buf.length, samples, i) && (!ok ==> next == Slots(buf.length))
      {
        PerCoreStep(cfg, before, samples, i);
        if samples[i].reachable {
          SameCore(cfg, before, Cores(), i, samples[i]);
          ok, next := ReadPerCoreMetrics(buf, i, samples[i], next, done);
          done := done + CoreEntries(cfg, before, i, samples[i]);
        }
        i := i + 1;
      }
      PerCorePrefix(cfg, before, samples, i);
      if ok {
        assert samples[..i] == samples;
      } else {
        forall k | i <= k < |before| ensures CoreNow(cfg, buf.length, before, samples, k) == before[k] {
          PastTheEnd(cfg, buf.length, before, samples, i, k);
        }
      }
    }

    /** Cores, then aggregates: the collecting part of the handler. */
    method Collect(buf: OutBuffer, io: Ioctl) returns (ok: bool, next: u16)
      requires |io.cores| < TWO32 && buf.Valid() && buf.length >= HEADER_SIZE
      modifies this`pkg, this`pp0, coreState, buf`header, buf.slots
      ensures buf.Valid()
      ensures ok <==> Fits(buf.length, |old(NextReply(io))|)
      ensures ok ==> Filled(buf, next, old(NextReply(io))) && buf.header == old(buf.header)
      ensures Sampled(buf.length, old(Cores()), old(pkg), old(pp0), io)
      ensures !ok ==> next == Slots(buf.length)
    {
      ok, next := ReadCores(buf, io.cores);
      if ok {
        ghost var done := PerCoreReply(cfg, old(Cores()), io.cores);
        if cfg.amd {
          ok, next := ReadAmdAggregateMetrics(buf, io.pkg, next, done);
        } else {
          ok, next := ReadIntelAggregateMetrics(buf, io.pkg, next, done);
        }
      }
    }

    ghost predicate Unsampled(cores: seq<CoreDelta>, pkg0: EnergySlot, pp00: EnergySlot)
      reads this, coreState
    {
      Cores() == cores && pkg == pkg0 && pp0 == pp00
    }

    /** The snapshots after a collection: exactly the rates the buffer let it come to hold this IOCTL's sample. */
    ghost predicate Sampled(length: u32, cores: seq<CoreDelta>, pkg0: EnergySlot, pp00: EnergySlot, io: Ioctl)
      reads this, coreState
    {
      var at := |PerCoreReply(cfg, cores, io.cores)|;
      && Advanced(cores, length, io.cores, |io.cores|)
      && pkg == PkgWithin(cfg, length, at, pkg0, io.pkg) && pp0 == Pp0Within(cfg, length, at, pp00, io.pkg)
    }

    /** The reply the next successful IOCTL gives. */
    ghost function NextReply(io: Ioctl): seq<CpuData>
      reads this, coreState
    {
      Reply(cfg, Cores(), pkg, pp0, io)
    }

    method EvtIoDeviceControl(buf: OutBuffer, io: Ioctl) returns (c: Completion)
      requires |io.cores| < TWO32 && buf.Valid()
      modifies this`pkg, this`pp0, coreState, buf`header, buf.slots
      ensures buf.Valid()
      ensures c.status == Outcome(cfg, buf.length, io, |old(NextReply(io))|)
      // Reply: entries in core order then aggregates, with the count and the byte count to match.
      ensures c.status == Success ==>
        var reply := old(NextReply(io));
        && buf.header == Header(RequiredSize(cfg, |io.cores|), |io.cores|, Trunc16(|reply|))
        && c.information == SizeOf(Trunc16(|reply|)) <= buf.length
        && Written(buf.slots[..], reply)
      // Snapshots: sampled as far as the collection came, which on success is all of them.
      ensures if Collects(cfg, buf.length, io) then Sampled(buf.length, old(Cores()), old(pkg), old(pp0), io)
              else Unsampled(old(Cores()), old(pkg), old(pp0))
      // Refusals: what the header holds.
      ensures c.status != Success ==> c.information == if c.status == BufferOverflow then HEADER_SIZE else 0
      ensures c.status != Success ==>
        buf.header == if !io.isGetData || buf.length < HEADER_SIZE || !io.retrieved then old(buf.header)
                      else Header(Announced(cfg, buf.length, io), |io.cores|, 0)
    {
      if !io.isGetData { return Completion(InvalidDeviceRequest, 0); }
      var requiredSize := RequiredSize(cfg, |io.cores|);
      if buf.length < HEADER_SIZE { return Completion(BufferTooSmall, 0); }
      if !io.retrieved { return Completion(NotRetrieved, 0); }
      buf.header := Header(requiredSize, |io.cores|, 0);
      if buf.length < requiredSize { return Completion(BufferOverflow, HEADER_SIZE); }
      if io.cpu != cfg.Vendor() { return Completion(InvalidDeviceRequest, 0); }

      var ok, next := Collect(buf, io);
      if !ok {
        buf.header := Header(Trunc32(HEADER_SIZE + (next + cfg.PerCore() + cfg.Aggregate()) * ENTRY_SIZE), |io.cores|, 0);
        return Completion(BufferOverflow, HEADER_SIZE);
      }
      buf.header := buf.header.(entryCount := next);
      return Completion(Success, SizeOf(next));
    }
  }

  lemma SameCore(cfg: Config, a: seq<CoreDelta>, b: seq<CoreDelta>, idx: nat, s: CoreSample)
    requires |a| == |b| && (idx < |a| ==> a[idx] == b[idx])
    ensures CoreEntries(cfg, a, idx, s) == CoreEntries(cfg, b, idx, s)
  {}

  lemma PerCoreStep(cfg: Config, cores: seq<CoreDelta>, samples: seq<CoreSample>, i: nat)
    requires i < |samples|
    ensures PerCoreReply(cfg, cores, samples[..i + 1])
         == PerCoreReply(cfg, cores, samples[..i]) + if samples[i].reachable then CoreEntries(cfg, cores, i, samples[i]) else []
  {
    assert samples[..i + 1][..i] == samples[..i];
  }

  lemma {:induction false} PerCorePrefix(cfg: Config, cores: seq<CoreDelta>, samples: seq<CoreSample>, i: nat)
    requires i <= |samples|
    ensures PerCoreReply(cfg, cores, samples[..i]) <= PerCoreReply(cfg, cores, samples)
    decreases |samples|
  {
    if i < |samples| {
      var init := samples[..|samples| - 1];
      PerCorePrefix(cfg, cores, init, i);
      assert init[..i] == samples[..i];
    } else {
      assert samples[..i] == samples;
    }
  }

  /** A core whose predecessors did not all fit keeps its snapshot. */
  lemma PastTheEnd(cfg: Config, length: u32, cores: seq<CoreDelta>, samples: seq<CoreSample>, i: nat, k: nat)
    requires i <= k < |cores| && i <= |samples| && !Fits(length, |PerCoreReply(cfg, cores, samples[..i])|)
    ensures CoreNow(cfg, length, cores, samples, k) == cores[k]
  {
    if k < |samples| {
      PerCorePrefix(cfg, cores, samples[..k], i);
      assert samples[..k][..i] == samples[..i];
    }
  }

  /** When the whole reply fits, every snapshot is this IOCTL's. */
  lemma AllSampled(cfg: Config, length: u32, cores: seq<CoreDelta>, pkg: EnergySlot, pp0: EnergySlot, io: Ioctl)
    requires Fits(length, |Reply(cfg, cores, pkg, pp0, io)|)
    ensures forall k :: 0 <= k < |cores| ==>
              CoreNow(cfg, length, cores, io.cores, k)
              == if k < |io.cores| && io.cores[k].reachable then CoreAfter(cfg, cores[k], io.cores[k]) else cores[k]
    ensures var at := |PerCoreReply(cfg, cores, io.cores)|;
            && PkgWithin(cfg, length, at, pkg, io.pkg) == PkgAfter(cfg, pkg, io.pkg)
            && Pp0Within(cfg, length, at, pp0, io.pkg) == Pp0After(cfg, pp0, io.pkg)
  {
    forall k | 0 <= k < |cores| && k < |io.cores| && io.cores[k].reachable
      ensures CoreNow(cfg, length, cores, io.cores, k) == CoreAfter(cfg, cores[k], io.cores[k])
    {
      CoreOrder(cfg, cores, io.cores, k);
    }
  }
}
