/**
  From a driver reply to the sensor list: every entry the client is given
  becomes a sensor of its own exactly when no two cores it shows print the same
  name.
 */
module DriverSensors {
  import opened Words
  import opened CoreName
  import opened CpuDriver
  import opened SensorTable

  ghost predicate Typed(entries: seq<CpuData>) {
    forall k :: 0 <= k < |entries| ==> TypeOf(entries[k].mtype).Some?
  }

  function KeyOf(entry: CpuData): Key
    requires TypeOf(entry.mtype).Some?
  {
    Key(CString(entry.name), TypeOf(entry.mtype).value)
  }

  ghost predicate DistinctKeys(entries: seq<CpuData>)
    requires Typed(entries)
  {
    forall i, j :: 0 <= i < j < |entries| ==> KeyOf(entries[i]) != KeyOf(entries[j])
  }

  lemma {:induction false} WritesOfTyped(entries: seq<CpuData>)
    requires Typed(entries)
    ensures |EntryWrites(entries)| == |entries|
    ensures forall k :: 0 <= k < |entries| ==> EntryWrites(entries)[k] == Write(KeyOf(entries[k]), Scaled(entries[k]))
  {
    if entries != [] { WritesOfTyped(entries[..|entries| - 1]); }
  }

  lemma {:induction false} WrittenKeys(writes: seq<Write>, key: Key)
    ensures LastWrite(writes, key).Some? <==> exists k :: 0 <= k < |writes| && writes[k].key == key
    ensures key in FirstInsertions([], writes) <==> LastWrite(writes, key).Some?
  {
    if writes != [] {
      var init := writes[..|writes| - 1];
      WrittenKeys(init, key);
      assert writes == init + [writes[|writes| - 1]];
    }
  }

  ghost predicate DistinctWriteKeys(writes: seq<Write>) {
    forall i, j :: 0 <= i < j < |writes| ==> writes[i].key != writes[j].key
  }

  lemma {:induction false} InsertionsCount(writes: seq<Write>)
    ensures |FirstInsertions([], writes)| <= |writes|
    ensures |FirstInsertions([], writes)| == |writes| <==> DistinctWriteKeys(writes)
  {
    if writes != [] {
      var n := |writes| - 1;
      InsertionsCount(writes[..n]);
      WrittenKeys(writes[..n], writes[n].key);
      assert DistinctWriteKeys(writes) <==> DistinctWriteKeys(writes[..n]) && !exists k :: 0 <= k < n && writes[..n][k].key == writes[n].key;
    }
  }

  /** A fresh table has one sensor per write exactly when the keys are pairwise distinct. */
  lemma OneSensorPerWrite(writes: seq<Write>)
    ensures |ApplyAll([], writes)| == |writes| <==> DistinctWriteKeys(writes)
  {
    TableRefinesMap([], writes);
    assert Keys([]) == [];
    InsertionsCount(writes);
  }

  // -------------------------------------------------------------- names

  ghost predicate Plain(text: string) {
    |text| < NAME_SIZE && forall k :: 0 <= k < |text| ==> text[k] != NUL
  }

  lemma NameFieldReads(text: string)
    requires Plain(text)
    ensures CString(NameField(text)) == text
  {
    var pad := seq(NAME_SIZE - |text|, _ => NUL);
    assert NameField(text) == text + [NUL] + pad[1..];
    CStringOf(text, pad[1..]);
  }

  ghost predicate MetricSuffix(suffix: string) {
    suffix == "Temp" || suffix == "VID" || suffix == "Clock" || suffix == "Load" || suffix == "Power"
  }

  lemma CoreNameReads(idx: nat, suffix: string)
    requires MetricSuffix(suffix)
    ensures CString(NameField(CoreText(idx, suffix))) == CoreText(idx, suffix)
    ensures |CoreText(idx, suffix)| > 5 && '0' <= CoreText(idx, suffix)[5] <= '9'
  {
    LowDigitsValue(idx, 4);
    var text := CoreText(idx, suffix);
    assert text == "Core " + (LowDigits(idx, 4) + (" " + suffix));
    assert text[5] == LowDigits(idx, 4)[0];
    NameFieldReads(text);
  }

  /** An entry of core idx, as far as its key goes. */
  ghost predicate IsCoreEntry(e: CpuData, idx: nat, suffix: string) {
    e.name == NameField(CoreText(idx, suffix)) && MetricSuffix(suffix) && TypeOf(e.mtype).Some?
  }

  ghost predicate FromCore(e: CpuData, idx: nat) {
    exists suffix :: IsCoreEntry(e, idx, suffix)
  }

  lemma KeysOfDifferentCores(e: CpuData, i: nat, f: CpuData, j: nat)
    requires FromCore(e, i) && FromCore(f, j) && !SameNumeral(i, j)
    ensures KeyOf(e) != KeyOf(f)
  {
    var s :| IsCoreEntry(e, i, s);
    var t :| IsCoreEntry(f, j, t);
    CoreNameReads(i, s);
    CoreNameReads(j, t);
    NamesClash(i, s, j, t);
  }

  /** The entries of one core have distinct suffixes, hence distinct keys. */
  lemma CoreEntriesKeys(cfg: Config, cores: seq<CoreDelta>, idx: nat, s: CoreSample)
    ensures var es := CoreEntries(cfg, cores, idx, s);
            Typed(es) && DistinctKeys(es) && forall k :: 0 <= k < |es| ==> FromCore(es[k], idx)
  {
    var es := CoreEntries(cfg, cores, idx, s);
    var suffixes := if cfg.amd then ["Clock", "Load", "Power"] else ["Temp", "VID", "Clock", "Load"];
    forall k | 0 <= k < |es| ensures IsCoreEntry(es[k], idx, suffixes[k]) {}
    CoreNamedKeys(es, idx, suffixes);
  }

  lemma CoreNamedKeys(es: seq<CpuData>, idx: nat, suffixes: seq<string>)
    requires |es| == |suffixes| && forall k :: 0 <= k < |es| ==> IsCoreEntry(es[k], idx, suffixes[k])
    requires forall i, j :: 0 <= i < j < |suffixes| ==> suffixes[i] != suffixes[j]
    ensures Typed(es) && DistinctKeys(es) && forall k :: 0 <= k < |es| ==> FromCore(es[k], idx)
  {
    forall i, j | 0 <= i < j < |es| ensures KeyOf(es[i]) != KeyOf(es[j]) {
      CoreNameReads(idx, suffixes[i]);
      CoreNameReads(idx, suffixes[j]);
      NamesClash(idx, suffixes[i], idx, suffixes[j]);
    }
  }

  /** No two reachable cores print the same name. */
  ghost predicate NoClash(samples: seq<CoreSample>) {
    forall i, j :: 0 <= i < j < |samples| && samples[i].reachable && samples[j].reachable ==> !SameNumeral(i, j)
  }

  /** Where in the per-core part the entries of core i start. */
  function StartOf(cfg: Config, samples: seq<CoreSample>, i: nat): nat
    requires i <= |samples|
  {
    cfg.PerCore() * Reachable(samples[..i])
  }

  lemma {:induction false} ReachableMonotone(samples: seq<CoreSample>, i: nat, j: nat)
    requires i <= j <= |samples|
    ensures Reachable(samples[..i]) <= Reachable(samples[..j])
    ensures i < j && samples[i].reachable ==> Reachable(samples[..i]) + 1 <= Reachable(samples[..j])
    decreases j
  {
    if i < j {
      ReachableMonotone(samples, i, j - 1);
      assert samples[..j][..j - 1] == samples[..j - 1];
    }
  }

  /** A core's entries end before those of any later core start. */
  lemma StartsApart(cfg: Config, samples: seq<CoreSample>, i: nat, j: nat)
    requires i < j <= |samples| && samples[i].reachable
    ensures StartOf(cfg, samples, i) + cfg.PerCore() <= StartOf(cfg, samples, j)
  {
    ReachableMonotone(samples, i, j);
    assert cfg.PerCore() * (Reachable(samples[..i]) + 1) == cfg.PerCore() * Reachable(samples[..i]) + cfg.PerCore();
  }

  /** Core i's own entry number m. */
  lemma EntryOfCore(cfg: Config, cores: seq<CoreDelta>, samples: seq<CoreSample>, i: nat, m: nat)
    requires i < |samples| && samples[i].reachable && m < cfg.PerCore()
    ensures var es, at := PerCoreReply(cfg, cores, samples), StartOf(cfg, samples, i) + m;
            at < |es| && es[at] == CoreEntries(cfg, cores, i, samples[i])[m]
  {
    CoreOrder(cfg, cores, samples, i);
    PerCoreCount(cfg, cores, samples[..i]);
    var es, start := PerCoreReply(cfg, cores, samples), StartOf(cfg, samples, i);
    assert es[start + m] == es[start..start + cfg.PerCore()][m];
  }

  /** Every entry is some reachable core's. */
  lemma {:induction false} CoreOfEntry(cfg: Config, cores: seq<CoreDelta>, samples: seq<CoreSample>, at: nat) returns (i: nat, m: nat)
    requires at < |PerCoreReply(cfg, cores, samples)|
    ensures i < |samples| && samples[i].reachable && m < cfg.PerCore() && at == StartOf(cfg, samples, i) + m
    decreases |samples|
  {
    var n := |samples| - 1;
    PerCoreCount(cfg, cores, samples[..n]);
    if at < |PerCoreReply(cfg, cores, samples[..n])| {
      i, m := CoreOfEntry(cfg, cores, samples[..n], at);
      assert samples[..n][..i] == samples[..i];
    } else {
      i, m := n, at - StartOf(cfg, samples, n);
    }
  }

  /** The same with what its key says. */
  lemma KeyedEntry(cfg: Config, cores: seq<CoreDelta>, samples: seq<CoreSample>, at: nat) returns (i: nat, m: nat)
    requires at < |PerCoreReply(cfg, cores, samples)|
    ensures i < |samples| && samples[i].reachable && m < cfg.PerCore() && at == StartOf(cfg, samples, i) + m
    ensures var e := PerCoreReply(cfg, cores, samples)[at]; TypeOf(e.mtype).Some? && FromCore(e, i)
  {
    i, m := CoreOfEntry(cfg, cores, samples, at);
    EntryOfCore(cfg, cores, samples, i, m);
    CoreEntriesKeys(cfg, cores, i, samples[i]);
  }

  lemma OneCoreDistinct(cfg: Config, cores: seq<CoreDelta>, samples: seq<CoreSample>, i: nat, m: nat, l: nat)
    requires i < |samples| && samples[i].reachable && m < l < cfg.PerCore()
    ensures var es, start := PerCoreReply(cfg, cores, samples), StartOf(cfg, samples, i);
            && start + l < |es| && TypeOf(es[start + m].mtype).Some? && TypeOf(es[start + l].mtype).Some?
            && KeyOf(es[start + m]) != KeyOf(es[start + l])
  {
    EntryOfCore(cfg, cores, samples, i, m);
    EntryOfCore(cfg, cores, samples, i, l);
    CoreEntriesKeys(cfg, cores, i, samples[i]);
  }

  /** Two entries of one key are those of two cores with one numeral. */
  lemma SameKeyMeansClash(cfg: Config, cores: seq<CoreDelta>, samples: seq<CoreSample>, p: nat, q: nat) returns (i: nat, j: nat)
    requires p < q < |PerCoreReply(cfg, cores, samples)|
    ensures var es := PerCoreReply(cfg, cores, samples);
            && TypeOf(es[p].mtype).Some? && TypeOf(es[q].mtype).Some?
            && (KeyOf(es[p]) == KeyOf(es[q]) ==>
                  && i < j < |samples| && samples[i].reachable && samples[j].reachable && SameNumeral(i, j)
                  && p < StartOf(cfg, samples, i) + cfg.PerCore())
  {
    var m, l;
    i, m := KeyedEntry(cfg, cores, samples, p);
    j, l := KeyedEntry(cfg, cores, samples, q);
    if i > j {
      StartsApart(cfg, samples, j, i);
    } else if i == j {
      OneCoreDistinct(cfg, cores, samples, i, m, l);
    } else if !SameNumeral(i, j) {
      KeysOfDifferentCores(PerCoreReply(cfg, cores, samples)[p], i, PerCoreReply(cfg, cores, samples)[q], j);
    }
  }

  /** Conversely such cores share the key of their last entries. */
  lemma ClashMeansSameKey(cfg: Config, cores: seq<CoreDelta>, samples: seq<CoreSample>, i: nat, j: nat) returns (p: nat, q: nat)
    requires i < j < |samples| && samples[i].reachable && samples[j].reachable && SameNumeral(i, j)
    ensures var es := PerCoreReply(cfg, cores, samples);
            && p < q < |es| && p == StartOf(cfg, samples, i) + cfg.PerCore() - 1
            && TypeOf(es[p].mtype).Some? && TypeOf(es[q].mtype).Some? && KeyOf(es[p]) == KeyOf(es[q])
  {
    var last := cfg.PerCore() - 1;
    EntryOfCore(cfg, cores, samples, i, last);
    EntryOfCore(cfg, cores, samples, j, last);
    StartsApart(cfg, samples, i, j);
    NamesClash(i, if cfg.amd then "Power" else "Load", j, if cfg.amd then "Power" else "Load");
    p, q := StartOf(cfg, samples, i) + last, StartOf(cfg, samples, j) + last;
  }

  ghost predicate IsPkgName(text: string) {
    text == "Package Temp" || text == "Package Power" || text == "Core Domain Power"
    || text == "Tdie Temp" || text == "Core Voltage" || text == "SoC Voltage"
  }

  lemma PkgNameReads(text: string)
    requires IsPkgName(text)
    ensures CString(NameField(text)) == text && |text| > 5 && !('0' <= text[5] <= '9')
  {
    NameFieldReads(text);
  }

  lemma AggregateKeys(cfg: Config, pkg: EnergySlot, pp0: EnergySlot, s: PkgSample)
    ensures var es := AggregateReply(cfg, pkg, pp0, s);
            && Typed(es) && DistinctKeys(es)
            && forall k :: 0 <= k < |es| ==> FromPackage(es[k])
  {
    var es := AggregateReply(cfg, pkg, pp0, s);
    var names :=
      if cfg.amd then ["Tdie Temp", "Core Voltage", "SoC Voltage", "Package Power"]
      else (if cfg.hasPkgTherm then ["Package Temp"] else []) + (if cfg.hasRapl then ["Package Power", "Core Domain Power"] else []);
    forall k | 0 <= k < |es| ensures PkgNamed(es[k], names[k]) {}
    PkgNamedKeys(es, names);
  }

  ghost predicate PkgNamed(e: CpuData, text: string) {
    IsPkgName(text) && e.name == NameField(text) && TypeOf(e.mtype).Some?
  }

  ghost predicate FromPackage(e: CpuData) {
    exists text :: PkgNamed(e, text)
  }

  lemma PkgNamedKeys(es: seq<CpuData>, names: seq<string>)
    requires |es| == |names| && forall k :: 0 <= k < |es| ==> PkgNamed(es[k], names[k])
    requires forall i, j :: 0 <= i < j < |names| ==> names[i] != names[j]
    ensures Typed(es) && DistinctKeys(es) && forall k :: 0 <= k < |es| ==> FromPackage(es[k])
  {
    forall k | 0 <= k < |es| ensures FromPackage(es[k]) { assert PkgNamed(es[k], names[k]); }
    forall i, j | 0 <= i < j < |es| ensures KeyOf(es[i]) != KeyOf(es[j]) {
      PkgNameReads(names[i]);
      PkgNameReads(names[j]);
    }
  }

  lemma CoreAgainstPackage(e: CpuData, f: CpuData, samples: seq<CoreSample>)
    requires exists i :: 0 <= i < |samples| && samples[i].reachable && FromCore(e, i)
    requires FromPackage(f)
    ensures TypeOf(e.mtype).Some? && TypeOf(f.mtype).Some? && KeyOf(e) != KeyOf(f)
  {
    var i :| 0 <= i < |samples| && samples[i].reachable && FromCore(e, i);
    var suffix :| IsCoreEntry(e, i, suffix);
    var text :| PkgNamed(f, text);
    CoreNameReads(i, suffix);
    PkgNameReads(text);
  }

  // ------------------------------------------------------------ first fetch

  /** How many of a reply's entries the 16-bit entry count hides; none below 65536. */
  function Hidden(cfg: Config, io: Ioctl): nat {
    EntryCount(cfg, io) - Trunc16(EntryCount(cfg, io))
  }

  /** No two reachable cores print the same name, unless the first one's entries are all hidden. */
  ghost predicate NoVisibleClash(cfg: Config, io: Ioctl) {
    forall i, j :: 0 <= i < j < |io.cores| && io.cores[i].reachable && io.cores[j].reachable && SameNumeral(i, j) ==>
      StartOf(cfg, io.cores, i) + cfg.PerCore() <= Hidden(cfg, io)
  }

  lemma DistinctWhereNoClashShows(cfg: Config, cores: seq<CoreDelta>, pkg: EnergySlot, pp0: EnergySlot, io: Ioctl, p: nat, q: nat)
    requires NoVisibleClash(cfg, io) && Hidden(cfg, io) <= p < q < |Reply(cfg, cores, pkg, pp0, io)|
    ensures var reply := Reply(cfg, cores, pkg, pp0, io);
            TypeOf(reply[p].mtype).Some? && TypeOf(reply[q].mtype).Some? && KeyOf(reply[p]) != KeyOf(reply[q])
  {
    var perCore, agg := PerCoreReply(cfg, cores, io.cores), AggregateReply(cfg, pkg, pp0, io.pkg);
    AggregateKeys(cfg, pkg, pp0, io.pkg);
    if q < |perCore| {
      var i, j := SameKeyMeansClash(cfg, cores, io.cores, p, q);
    } else if p < |perCore| {
      EntryAgainstPackage(cfg, cores, io.cores, p, agg[q - |perCore|]);
    }
  }

  lemma SameWhereAClashShows(cfg: Config, cores: seq<CoreDelta>, pkg: EnergySlot, pp0: EnergySlot, io: Ioctl) returns (p: nat, q: nat)
    requires !NoVisibleClash(cfg, io)
    ensures var reply := Reply(cfg, cores, pkg, pp0, io);
            && Hidden(cfg, io) <= p < q < |reply|
            && TypeOf(reply[p].mtype).Some? && TypeOf(reply[q].mtype).Some? && KeyOf(reply[p]) == KeyOf(reply[q])
  {
    var i, j :| 0 <= i < j < |io.cores| && io.cores[i].reachable && io.cores[j].reachable && SameNumeral(i, j)
                && StartOf(cfg, io.cores, i) + cfg.PerCore() > Hidden(cfg, io);
    p, q := ClashMeansSameKey(cfg, cores, io.cores, i, j);
  }

  ghost predicate DistinctFrom(entries: seq<CpuData>, hidden: nat)
    requires Typed(entries)
  {
    forall p, q :: hidden <= p < q < |entries| ==> KeyOf(entries[p]) != KeyOf(entries[q])
  }

  lemma DistinctTail(entries: seq<CpuData>, hidden: nat)
    requires Typed(entries) && hidden <= |entries|
    ensures DistinctKeys(entries[hidden..]) <==> DistinctFrom(entries, hidden)
  {
    var tail := entries[hidden..];
    if DistinctKeys(tail) {
      forall p, q | hidden <= p < q < |entries| ensures KeyOf(entries[p]) != KeyOf(entries[q]) {
        assert tail[p - hidden] == entries[p] && tail[q - hidden] == entries[q];
      }
    }
  }

  /** From the hidden-th entry on, the keys of a reply are distinct exactly when no clash shows. */
  lemma VisibleKeys(cfg: Config, cores: seq<CoreDelta>, pkg: EnergySlot, pp0: EnergySlot, io: Ioctl)
    ensures Typed(Reply(cfg, cores, pkg, pp0, io))
    ensures DistinctFrom(Reply(cfg, cores, pkg, pp0, io), Hidden(cfg, io)) <==> NoVisibleClash(cfg, io)
  {
    var reply := Reply(cfg, cores, pkg, pp0, io);
    ReplyTyped(cfg, cores, pkg, pp0, io);
    if NoVisibleClash(cfg, io) {
      forall p, q | Hidden(cfg, io) <= p < q < |reply| ensures KeyOf(reply[p]) != KeyOf(reply[q]) {
        DistinctWhereNoClashShows(cfg, cores, pkg, pp0, io, p, q);
      }
    } else {
      var p, q := SameWhereAClashShows(cfg, cores, pkg, pp0, io);
    }
  }

  lemma ReplyTyped(cfg: Config, cores: seq<CoreDelta>, pkg: EnergySlot, pp0: EnergySlot, io: Ioctl)
    ensures Typed(Reply(cfg, cores, pkg, pp0, io))
  {
    var perCore, agg := PerCoreReply(cfg, cores, io.cores), AggregateReply(cfg, pkg, pp0, io.pkg);
    AggregateKeys(cfg, pkg, pp0, io.pkg);
    forall p | 0 <= p < |perCore| ensures TypeOf(perCore[p].mtype).Some? {
      var i, m := CoreOfEntry(cfg, cores, io.cores, p);
      EntryOfCore(cfg, cores, io.cores, i, m);
      CoreEntriesKeys(cfg, cores, i, io.cores[i]);
    }
  }

  lemma EntryAgainstPackage(cfg: Config, cores: seq<CoreDelta>, samples: seq<CoreSample>, p: nat, f: CpuData)
    requires p < |PerCoreReply(cfg, cores, samples)| && FromPackage(f)
    ensures var e := PerCoreReply(cfg, cores, samples)[p];
            TypeOf(e.mtype).Some? && TypeOf(f.mtype).Some? && KeyOf(e) != KeyOf(f)
  {
    var i, m := CoreOfEntry(cfg, cores, samples, p);
    EntryOfCore(cfg, cores, samples, i, m);
    CoreEntriesKeys(cfg, cores, i, samples[i]);
    CoreAgainstPackage(PerCoreReply(cfg, cores, samples)[p], f, samples);
  }

  lemma OneSensorPerEntry(entries: seq<CpuData>)
    requires Typed(entries)
    ensures |ApplyAll([], EntryWrites(entries))| == |entries| <==> DistinctKeys(entries)
  {
    WritesOfTyped(entries);
    OneSensorPerWrite(EntryWrites(entries));
  }

  /**
    The first fetch of any driver reply leaves one sensor per entry the client
    is given, if and only if no two reachable cores whose entries show print
    the same name.
   */
  lemma FirstFetch(cfg: Config, cores: seq<CoreDelta>, pkg: EnergySlot, pp0: EnergySlot, io: Ioctl)
    ensures var shown := Shown(Reply(cfg, cores, pkg, pp0, io));
            |ApplyAll([], EntryWrites(shown))| == |shown| <==> NoVisibleClash(cfg, io)
  {
    var reply := Reply(cfg, cores, pkg, pp0, io);
    ReplyCount(cfg, cores, pkg, pp0, io);
    assert Shown(reply) == reply[Hidden(cfg, io)..];
    VisibleKeys(cfg, cores, pkg, pp0, io);
    DistinctTail(reply, Hidden(cfg, io));
    OneSensorPerEntry(Shown(reply));
  }

  /** Below 65536 entries everything shows, and the condition is that no two reachable cores print the same name. */
  lemma AllVisible(cfg: Config, io: Ioctl)
    requires EntryCount(cfg, io) < 0x1_0000
    ensures NoVisibleClash(cfg, io) <==> NoClash(io.cores)
  {}

  /** Names start to collide with the 11001st core, and with every core reachable they then do. */
  lemma ClashBound(samples: seq<CoreSample>)
    ensures |samples| <= 11000 ==> NoClash(samples)
    ensures (forall k :: 0 <= k < |samples| ==> samples[k].reachable) ==> (NoClash(samples) <==> |samples| <= 11000)
  {
    if |samples| > 11000 && forall k :: 0 <= k < |samples| ==> samples[k].reachable {
      assert SameNumeral(1000, 11000) && samples[1000].reachable && samples[11000].reachable;
    }
  }
}
