/**
  The counter snapshots over whole sequences of completed IOCTLs: what each
  core and each energy domain remembers, and what the next value is made of.
 */
module DeltaRuns {
  import opened Words
  import opened DeltaMetrics
  import opened CpuDriver

  /** Core snapshots after one completed IOCTL. */
  function CoresAfter(cfg: Config, cores: seq<CoreDelta>, samples: seq<CoreSample>): (r: seq<CoreDelta>)
    ensures |r| == |cores|
  {
    seq(|cores|, k requires 0 <= k < |cores| =>
      if k < |samples| && samples[k].reachable then CoreAfter(cfg, cores[k], samples[k]) else cores[k])
  }

  function RunCores(cfg: Config, procs: nat, run: seq<Ioctl>): (r: seq<CoreDelta>)
    ensures |r| == procs
  {
    if run == [] then seq(procs, _ => ZERO_CORE)
    else CoresAfter(cfg, RunCores(cfg, procs, run[..|run| - 1]), run[|run| - 1].cores)
  }

  function RunPkg(cfg: Config, run: seq<Ioctl>): EnergySlot {
    if run == [] then ZERO_SLOT else PkgAfter(cfg, RunPkg(cfg, run[..|run| - 1]), run[|run| - 1].pkg)
  }

  function RunPp0(cfg: Config, run: seq<Ioctl>): EnergySlot {
    if run == [] then ZERO_SLOT else Pp0After(cfg, RunPp0(cfg, run[..|run| - 1]), run[|run| - 1].pkg)
  }

  /** The latest sample of core k. */
  function LastSample(run: seq<Ioctl>, k: nat): Option<CoreSample> {
    if run == [] then None
    else
      var cores := run[|run| - 1].cores;
      if k < |cores| && cores[k].reachable then Some(cores[k]) else LastSample(run[..|run| - 1], k)
  }

  // -------------------------------------------------------- the driver's runs

  datatype Request = Request(length: u32, header: Header, io: Ioctl)

  /** Processor counts have 32 bits. */
  ghost predicate Countable(requests: seq<Request>) {
    forall i :: 0 <= i < |requests| ==> |requests[i].io.cores| < TWO32
  }

  datatype Snapshots = Snapshots(cores: seq<CoreDelta>, pkg: EnergySlot, pp0: EnergySlot)

  /** The snapshots after one request: completed, cut short by its buffer, or refused. */
  function AfterRequest(cfg: Config, st: Snapshots, r: Request): (after: Snapshots)
    requires |r.io.cores| < TWO32
    ensures |after.cores| == |st.cores|
  {
    if !Collects(cfg, r.length, r.io) then st
    else
      var at := |PerCoreReply(cfg, st.cores, r.io.cores)|;
      Snapshots(seq(|st.cores|, k requires 0 <= k < |st.cores| => CoreNow(cfg, r.length, st.cores, r.io.cores, k)),
                PkgWithin(cfg, r.length, at, st.pkg, r.io.pkg), Pp0Within(cfg, r.length, at, st.pp0, r.io.pkg))
  }

  /** What a request is given: the visible part of a reply that fits, or nothing. */
  function ReplyTo(cfg: Config, st: Snapshots, r: Request): Option<seq<CpuData>>
    requires |r.io.cores| < TWO32
  {
    var reply := Reply(cfg, st.cores, st.pkg, st.pp0, r.io);
    if Collects(cfg, r.length, r.io) && Fits(r.length, |reply|) then Some(Shown(reply)) else None
  }

  /** The snapshots after any requests, from a driver just loaded. */
  function SnapshotsAfter(cfg: Config, procs: nat, requests: seq<Request>): Snapshots
    requires Countable(requests)
  {
    if requests == [] then Snapshots(RunCores(cfg, procs, []), ZERO_SLOT, ZERO_SLOT)
    else AfterRequest(cfg, SnapshotsAfter(cfg, procs, requests[..|requests| - 1]), requests[|requests| - 1])
  }

  /** What each request is given, on the snapshots the requests before it left. */
  ghost function RepliesTo(cfg: Config, procs: nat, requests: seq<Request>): (r: seq<Option<seq<CpuData>>>)
    requires Countable(requests)
    ensures |r| == |requests|
  {
    if requests == [] then []
    else
      var init := requests[..|requests| - 1];
      RepliesTo(cfg, procs, init) + [ReplyTo(cfg, SnapshotsAfter(cfg, procs, init), requests[|requests| - 1])]
  }

  ghost predicate InState(d: Driver, st: Snapshots)
    reads d, d.coreState
  {
    Snapshots(d.Cores(), d.pkg, d.pp0) == st
  }

  /** One request, whatever becomes of it. */
  method ServeOne(d: Driver, r: Request, ghost st: Snapshots) returns (reply: Option<seq<CpuData>>)
    requires |r.io.cores| < TWO32 && InState(d, st)
    modifies d`pkg, d`pp0, d.coreState
    ensures InState(d, AfterRequest(d.cfg, st, r)) && reply == ReplyTo(d.cfg, st, r)
  {
    var buf := new OutBuffer(r.length, r.header);
    ghost var next := Reply(d.cfg, st.cores, st.pkg, st.pp0, r.io);
    var c := d.EvtIoDeviceControl(buf, r.io);
    if c.status == Success {
      WrittenTail(buf.slots[..], next);
      reply := Some(buf.slots[..buf.header.entryCount]);
    } else {
      reply := None;
    }
    assert d.Cores() == AfterRequest(d.cfg, st, r).cores;
  }

  /**
    A driver just loaded, given any requests at all: its snapshots and replies
    are those of the requests in order, refused and cut-short ones included.
   */
  method Serve(d: Driver, requests: seq<Request>, ghost procs: nat) returns (replies: seq<Option<seq<CpuData>>>)
    requires Countable(requests) && InState(d, SnapshotsAfter(d.cfg, procs, []))
    modifies d`pkg, d`pp0, d.coreState
    ensures InState(d, SnapshotsAfter(d.cfg, procs, requests))
    ensures replies == RepliesTo(d.cfg, procs, requests)
  {
    replies := [];
    ghost var st := SnapshotsAfter(d.cfg, procs, []);
    for i := 0 to |requests|
      invariant st == SnapshotsAfter(d.cfg, procs, requests[..i]) && InState(d, st)
      invariant replies == RepliesTo(d.cfg, procs, requests[..i])
    {
      assert requests[..i + 1][..i] == requests[..i];
      var reply := ServeOne(d, requests[i], st);
      replies, st := replies + [reply], AfterRequest(d.cfg, st, requests[i]);
    }
    assert requests[..|requests|] == requests;
  }

  /** Reply i is made on the snapshots that the requests before it left. */
  lemma {:induction false} RepliesAt(cfg: Config, procs: nat, requests: seq<Request>, i: nat)
    requires Countable(requests) && i < |requests|
    ensures RepliesTo(cfg, procs, requests)[i] == ReplyTo(cfg, SnapshotsAfter(cfg, procs, requests[..i]), requests[i])
    decreases |requests|
  {
    var init := requests[..|requests| - 1];
    if i < |init| {
      RepliesAt(cfg, procs, init, i);
      assert init[..i] == requests[..i];
    }
  }

  /** Sizes that come out right, or wrap without harm; then a call that collects anything completes. */
  ghost predicate Sizeable(cfg: Config, requests: seq<Request>) {
    Countable(requests) && forall i :: 0 <= i < |requests| ==> SizingHolds(cfg, |requests[i].io.cores|)
  }

  /** The IOCTLs the driver comes to collect for; all other requests are refused. */
  function Collected(cfg: Config, requests: seq<Request>): seq<Ioctl>
    requires Countable(requests)
  {
    if requests == [] then []
    else
      var r := requests[|requests| - 1];
      Collected(cfg, requests[..|requests| - 1]) + if Collects(cfg, r.length, r.io) then [r.io] else []
  }

  /** The reply after a run of completed IOCTLs. */
  function ReplyAfter(cfg: Config, procs: nat, run: seq<Ioctl>, io: Ioctl): seq<CpuData> {
    Reply(cfg, RunCores(cfg, procs, run), RunPkg(cfg, run), RunPp0(cfg, run), io)
  }

  ghost function RunState(cfg: Config, procs: nat, run: seq<Ioctl>): Snapshots {
    Snapshots(RunCores(cfg, procs, run), RunPkg(cfg, run), RunPp0(cfg, run))
  }

  /**
    Without harmful wrapping nothing is cut short: the snapshots are those of
    the completed IOCTLs, and a request gets its whole reply or is refused.
   */
  lemma {:induction false} CompletedRuns(cfg: Config, procs: nat, requests: seq<Request>, r: Request)
    requires Sizeable(cfg, requests) && |r.io.cores| < TWO32 && SizingHolds(cfg, |r.io.cores|)
    ensures SnapshotsAfter(cfg, procs, requests) == RunState(cfg, procs, Collected(cfg, requests))
    ensures ReplyTo(cfg, SnapshotsAfter(cfg, procs, requests), r)
         == if Collects(cfg, r.length, r.io) then Some(Shown(ReplyAfter(cfg, procs, Collected(cfg, requests), r.io))) else None
    decreases |requests|
  {
    var run := Collected(cfg, requests);
    if requests != [] {
      var init, last := requests[..|requests| - 1], requests[|requests| - 1];
      CompletedRuns(cfg, procs, init, last);
      if Collects(cfg, last.length, last.io) {
        CompletedStep(cfg, procs, Collected(cfg, init), last);
      } else {
        assert run == Collected(cfg, init);
      }
    }
    ReplyCount(cfg, RunCores(cfg, procs, run), RunPkg(cfg, run), RunPp0(cfg, run), r.io);
    if Collects(cfg, r.length, r.io) { Completes(cfg, r.length, r.io, ReplyAfter(cfg, procs, run, r.io)); }
  }

  lemma CompletedStep(cfg: Config, procs: nat, run: seq<Ioctl>, r: Request)
    requires |r.io.cores| < TWO32 && SizingHolds(cfg, |r.io.cores|) && Collects(cfg, r.length, r.io)
    ensures AfterRequest(cfg, RunState(cfg, procs, run), r) == RunState(cfg, procs, run + [r.io])
  {
    ReplyCount(cfg, RunCores(cfg, procs, run), RunPkg(cfg, run), RunPp0(cfg, run), r.io);
    Completes(cfg, r.length, r.io, ReplyAfter(cfg, procs, run, r.io));
    AllSampled(cfg, r.length, RunCores(cfg, procs, run), RunPkg(cfg, run), RunPp0(cfg, run), r.io);
    assert (run + [r.io])[..|run|] == run;
    assert AfterRequest(cfg, RunState(cfg, procs, run), r).cores == RunCores(cfg, procs, run + [r.io]);
  }

  lemma Completes(cfg: Config, length: u32, io: Ioctl, reply: seq<CpuData>)
    requires |io.cores| < TWO32 && SizingHolds(cfg, |io.cores|) && Collects(cfg, length, io) && |reply| == EntryCount(cfg, io)
    ensures Fits(length, |reply|)
  {
    EntryCountAtMost(cfg, io);
    AnnouncedSizeSuffices(cfg, |io.cores|);
    assert Fits(RequiredSize(cfg, |io.cores|), |reply|);
  }

  /** A driver just loaded is at the start of its run. */
  method Load(cfg: Config, maxProcs: u32, poolOk: bool) returns (d: Driver)
    ensures fresh(d) && d.cfg == cfg && (d.coreState != null ==> fresh(d.coreState))
    ensures InState(d, SnapshotsAfter(cfg, if poolOk && (cfg.amd || cfg.hasMperf) then maxProcs else 0, []))
  {
    d := new Driver(cfg, maxProcs, poolOk);
  }

  // ------------------------------------------------------ what values are made of

  /** After any run a core's snapshot is made of its last sample alone, whatever came before. */
  lemma {:induction false} CoreMemory(cfg: Config, procs: nat, run: seq<Ioctl>, k: nat)
    requires k < procs
    ensures RunCores(cfg, procs, run)[k]
         == match LastSample(run, k) case None => ZERO_CORE case Some(s) => CoreAfter(cfg, ZERO_CORE, s)
  {
    if run != [] { CoreMemory(cfg, procs, run[..|run| - 1], k); }
  }

  /** Load between a core's last two samples; 0 without MPERF, without core state, or on the first. */
  function LoadBetween(cfg: Config, procs: nat, k: nat, before: Option<CoreSample>, s: CoreSample): u32 {
    if !cfg.hasMperf || k >= procs || before.None? then 0
    else LoadPercent(before.value.mperf, before.value.tsc, s.mperf, s.tsc)
  }

  /** The load entry of a core in the reply after any run compares its last two samples, and is a percentage. */
  lemma LoadOfLastTwo(cfg: Config, procs: nat, run: seq<Ioctl>, io: Ioctl, k: nat)
    requires k < |io.cores| && io.cores[k].reachable
    ensures var at := |PerCoreReply(cfg, RunCores(cfg, procs, run), io.cores[..k])| + if cfg.amd then 1 else 3;
            var load := LoadBetween(cfg, procs, k, LastSample(run, k), io.cores[k]);
            && at < |ReplyAfter(cfg, procs, run, io)| && load <= 100
            && ReplyAfter(cfg, procs, run, io)[at] == CoreEntry(load, k, "Load", METRIC_LOAD, UNIT_PERCENT)
  {
    var s := io.cores[k];
    var own := EntryOf(cfg, procs, run, io, k, if cfg.amd then 1 else 3);
    if k < procs { CoreMemory(cfg, procs, run, k); }
    if LastSample(run, k).Some? {
      var p := LastSample(run, k).value;
      LoadIsPercent(p.mperf, p.tsc, s.mperf, s.tsc);
    }
  }

  /** The j-th entry of core k lies j past those of the reachable cores before it. */
  lemma EntryOf(cfg: Config, procs: nat, run: seq<Ioctl>, io: Ioctl, k: nat, j: nat) returns (own: seq<CpuData>)
    requires k < |io.cores| && io.cores[k].reachable && j < cfg.PerCore()
    ensures own == CoreEntries(cfg, RunCores(cfg, procs, run), k, io.cores[k])
    ensures var at := |PerCoreReply(cfg, RunCores(cfg, procs, run), io.cores[..k])| + j;
            at < |ReplyAfter(cfg, procs, run, io)| && ReplyAfter(cfg, procs, run, io)[at] == own[j]
  {
    var cores := RunCores(cfg, procs, run);
    var at := |PerCoreReply(cfg, cores, io.cores[..k])|;
    CoreOrder(cfg, cores, io.cores, k);
    own := PerCoreReply(cfg, cores, io.cores)[at..at + cfg.PerCore()];
  }

  /** Package power of the next IOCTL after a run. */
  function PkgPowerBetween(cfg: Config, run: seq<Ioctl>, s: PkgSample): u32 {
    if run == [] || (cfg.amd && (!cfg.zen || cfg.freq <= 0)) then 0
    else
      var p := run[|run| - 1].pkg;
      PowerMilliwatts(cfg.divisor, cfg.freq, Trunc32(s.pkgEnergy), Trunc32(p.pkgEnergy), s.pkgQpc, p.pkgQpc, true)
  }

  /** The package power entry of a reply is 0 on the first completed IOCTL and afterwards compares the last two. */
  lemma PackagePowerOfLastTwo(cfg: Config, procs: nat, run: seq<Ioctl>, io: Ioctl)
    requires cfg.amd || cfg.hasRapl
    ensures var at := |PerCoreReply(cfg, RunCores(cfg, procs, run), io.cores)| + if cfg.amd then 3 else if cfg.hasPkgTherm then 1 else 0;
            && at < |ReplyAfter(cfg, procs, run, io)|
            && ReplyAfter(cfg, procs, run, io)[at]
               == PkgEntry(PkgPowerBetween(cfg, run, io.pkg), "Package Power", METRIC_POWER, UNIT_MILLIWATTS)
  {
    PkgMemory(cfg, run);
  }

  /** The same for Intel's core domain, in the last entry. */
  lemma CoreDomainPowerOfLastTwo(cfg: Config, procs: nat, run: seq<Ioctl>, io: Ioctl)
    requires !cfg.amd && cfg.hasRapl
    ensures var reply, s := ReplyAfter(cfg, procs, run, io), io.pkg;
            var power := if run == [] then 0 else
              var p := run[|run| - 1].pkg;
              PowerMilliwatts(cfg.divisor, cfg.freq, Trunc32(s.pp0Energy), Trunc32(p.pp0Energy), s.pp0Qpc, p.pp0Qpc, true);
            reply != [] && reply[|reply| - 1] == PkgEntry(power, "Core Domain Power", METRIC_POWER, UNIT_MILLIWATTS)
  {
    PkgMemory(cfg, run);
  }

  /** The energy domains remember the last completed IOCTL. */
  lemma PkgMemory(cfg: Config, run: seq<Ioctl>)
    ensures (if cfg.amd then cfg.zen else cfg.hasRapl) ==>
      RunPkg(cfg, run) == if run == [] then ZERO_SLOT
                          else SlotAfter(run[|run| - 1].pkg.pkgEnergy, run[|run| - 1].pkg.pkgQpc)
    ensures !cfg.amd && cfg.hasRapl ==>
      RunPp0(cfg, run) == if run == [] then ZERO_SLOT
                          else SlotAfter(run[|run| - 1].pkg.pp0Energy, run[|run| - 1].pkg.pp0Qpc)
  {}

  /** On AMD Zen the shared valid flag does stand for a stored energy sample between IOCTLs. */
  lemma {:induction false} AmdValidMeansSampled(cfg: Config, procs: nat, run: seq<Ioctl>, k: nat)
    requires k < procs && cfg.amd && cfg.zen
    ensures var st := RunCores(cfg, procs, run)[k];
            && (st.valid <==> cfg.hasMperf && LastSample(run, k).Some?)
            && (st.valid ==> st.prevEnergy == Trunc32(LastSample(run, k).value.energy))
            && (st.valid ==> st.prevQpc == LastSample(run, k).value.qpc)
  {
    CoreMemory(cfg, procs, run, k);
  }

  /**
    AMD core power: guarded by the flag of the load snapshot, so 0 without
    MPERF; with it the last two samples are compared, except that the first
    sample of a core is compared with a zero counter at time zero.
   */
  function CorePowerBetween(cfg: Config, procs: nat, k: nat, before: Option<CoreSample>, s: CoreSample): u32 {
    if !cfg.zen || !cfg.hasMperf || cfg.freq <= 0 || k >= procs then 0
    else
      var (energy, qpc) := if before.None? then (0, 0) else (Trunc32(before.value.energy), before.value.qpc);
      PowerMilliwatts(cfg.divisor, cfg.freq, Trunc32(s.energy), energy, s.qpc, qpc, true)
  }

  /** The power entry of a core in the reply after any run. */
  lemma AmdCorePower(cfg: Config, procs: nat, run: seq<Ioctl>, io: Ioctl, k: nat)
    requires k < |io.cores| && io.cores[k].reachable && cfg.amd
    ensures var at := |PerCoreReply(cfg, RunCores(cfg, procs, run), io.cores[..k])| + 2;
            var power := CorePowerBetween(cfg, procs, k, LastSample(run, k), io.cores[k]);
            && at < |ReplyAfter(cfg, procs, run, io)|
            && ReplyAfter(cfg, procs, run, io)[at] == CoreEntry(power, k, "Power", METRIC_POWER, UNIT_MILLIWATTS)
  {
    var own := EntryOf(cfg, procs, run, io, k, 2);
    if k < procs { CoreMemory(cfg, procs, run, k); }
  }

  /**
    A core's first power value is 0, as that of every other rate is, exactly
    when power is not measured at all or the energy since the counter's start
    amounts to no milliwatts over the time since boot.
   */
  lemma FirstAmdCorePower(cfg: Config, procs: nat, run: seq<Ioctl>, io: Ioctl, k: nat)
    requires k < |io.cores| && io.cores[k].reachable && cfg.amd && LastSample(run, k).None?
    ensures var at := |PerCoreReply(cfg, RunCores(cfg, procs, run), io.cores[..k])| + 2;
            var s := io.cores[k];
            && at < |ReplyAfter(cfg, procs, run, io)|
            && (ReplyAfter(cfg, procs, run, io)[at].value == 0
                <==> || !cfg.zen || !cfg.hasMperf || cfg.divisor == 0 || cfg.freq <= 0 || k >= procs
                     || TimeMs(cfg.freq, s.qpc, 0) == 0
                     || Trunc32(s.energy) * 1000 / cfg.divisor * 1000 / TimeMs(cfg.freq, s.qpc, 0) % TWO32 == 0)
  {
    AmdCorePower(cfg, procs, run, io, k);
    if cfg.divisor != 0 { PowerFromZero(cfg.divisor, Trunc32(io.cores[k].energy)); }
  }

  /** Nothing is cut off before the last cast. */
  lemma PowerFromZero(divisor: u32, energy: u32)
    requires divisor != 0
    ensures EnergyDelta(energy, 0) == energy && Trunc64(MilliJoules(energy, divisor) * 1000) == energy * 1000 / divisor * 1000
  {
    PowerFits(energy, divisor);
    TruncId64(energy * 1000);
    TruncId64(MilliJoules(energy, divisor) * 1000);
  }

  /** It need not be: 5 J since boot read 5 W one second after it. */
  lemma FirstAmdCorePowerIsNotZero()
    ensures var cfg := Config(true, true, false, false, true, 1, 1000);
            var s := CoreSample(true, 0, 0, 0, 1, 1, 5, 1000);
            CorePowerBetween(cfg, 1, 0, None, s) == 5000
  {
    FiveWatts();
  }

  lemma FiveWatts()
    ensures PowerMilliwatts(1, 1000, 5, 0, 1000, 0, true) == 5000
  {
    assert EnergyDelta(5, 0) == 5 && TimeMs(1000, 1000, 0) == 1000 && MilliJoules(5, 1) == 5000;
  }

  /** The energy steps the driver turns into package power over a run. */
  function PkgDeltaSum(cfg: Config, run: seq<Ioctl>): nat {
    if run == [] then 0
    else
      var init := run[..|run| - 1];
      var before := RunPkg(cfg, init);
      PkgDeltaSum(cfg, init)
      + if before.valid then EnergyDelta(Trunc32(run[|run| - 1].pkg.pkgEnergy), before.prevEnergy) else 0
  }

  lemma {:induction false} PkgDeltasAreConsecutive(cfg: Config, run: seq<Ioctl>, energy: seq<nat>)
    requires if cfg.amd then cfg.zen else cfg.hasRapl
    requires |energy| == |run| && forall i :: 0 <= i < |run| ==> Trunc32(run[i].pkg.pkgEnergy) == Trunc32(energy[i])
    ensures PkgDeltaSum(cfg, run) == DeltaSum(Raw(energy))
  {
    if run != [] {
      var n := |run| - 1;
      PkgDeltasAreConsecutive(cfg, run[..n], energy[..n]);
      assert Raw(energy)[..n] == Raw(energy[..n]);
    }
  }

  /**
    Over any run of completed IOCTLs the energy steps behind the reported
    package power account for the whole counter, last minus first, exactly
    when no two successive IOCTLs are 2^32 or more units apart.
   */
  lemma PackageEnergyAccountedFor(cfg: Config, run: seq<Ioctl>, energy: seq<nat>)
    requires if cfg.amd then cfg.zen else cfg.hasRapl
    requires |energy| == |run| >= 1 && Monotone(energy)
    requires forall i :: 0 <= i < |run| ==> Trunc32(run[i].pkg.pkgEnergy) == Trunc32(energy[i])
    ensures energy[0] + PkgDeltaSum(cfg, run) == energy[|energy| - 1] <==> StepsFit(energy)
  {
    PkgDeltasAreConsecutive(cfg, run, energy);
    EnergyConserved(energy);
  }
}
