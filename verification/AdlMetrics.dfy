/**
  The ADL waterfall of the AMD GPU device: overdrive levels 5, 6, N and 8 in
  turn, each reading added only inside the range of its sensor type, so that
  a later level overwrites an earlier one and a refused reading leaves what
  was there. SDK readings are inputs; None stands for a missing entry point
  or a failed call.
 */
module AdlMetrics {
  import opened Words
  import opened SensorTable

  datatype Activity = Activity(engineClock: int, memoryClock: int, percent: int)

  datatype Readings = Readings(
    od5Temperature: Option<int>, od5Activity: Option<Activity>, od5Fan: Option<int>,
    od6Temperature: Option<int>, od6Status: Option<Activity>, od6Power: Option<int>, od6Fan: Option<(bool, int)>,
    odnTemperature: Option<int>, odnStatus: Option<Activity>,
    /** Supported PMLog sensors, each with the name and type its identifier selects. */
    od8: seq<Write>)

  predicate InRange(stype: SensorType, v: real) {
    match stype
    case TEMPERATURE => 0.0 < v < 150.0
    case CLOCK => 0.0 < v < 10000.0
    case USAGE => 0.0 <= v <= 100.0
    case POWER => 0.0 <= v < 1000.0
    case FAN_SPEED => 0.0 <= v < 20000.0
    case VOLTAGE => 0.0 <= v < 3.0
    case MEMORY => false
  }

  const CORE_TEMPERATURE := Key("Average Core Temperature", TEMPERATURE)
  const CORE_CLOCK := Key("Core / Graphics Clock Speed", CLOCK)
  const MEMORY_CLOCK := Key("Memory Clock Speed", CLOCK)
  const CORE_USAGE := Key("Core / Graphics Utilization", USAGE)
  const FAN := Key("Fan Speed", FAN_SPEED)
  const POWER_DRAW := Key("GPU Power Draw", POWER)

  function Temperature(milli: Option<int>): seq<Write> {
    if milli.None? then [] else [Write(CORE_TEMPERATURE, milli.value as real / 1000.0)]
  }

  function Status(a: Option<Activity>): seq<Write> {
    if a.None? then []
    else [Write(CORE_CLOCK, a.value.engineClock as real * 0.01),
          Write(MEMORY_CLOCK, a.value.memoryClock as real * 0.01),
          Write(CORE_USAGE, a.value.percent as real)]
  }

  function Fan(rpm: Option<int>): seq<Write> {
    if rpm.None? then [] else [Write(FAN, rpm.value as real)]
  }

  function Power(milliwatts: Option<int>): seq<Write> {
    if milliwatts.None? then [] else [Write(POWER_DRAW, milliwatts.value as real / 1000.0)]
  }

  function Od5(r: Readings): seq<Write> {
    Temperature(r.od5Temperature) + Status(r.od5Activity) + Fan(r.od5Fan)
  }

  function Od6(r: Readings): seq<Write> {
    Temperature(r.od6Temperature) + Status(r.od6Status) + Power(r.od6Power)
    + Fan(if r.od6Fan.Some? && r.od6Fan.value.0 then Some(r.od6Fan.value.1) else None)
  }

  function Odn(r: Readings): seq<Write> {
    Temperature(r.odnTemperature) + Status(r.odnStatus)
  }

  /** What each level would write, lowest level first. */
  function Levels(r: Readings): seq<seq<Write>> {
    [Od5(r), Od6(r), Odn(r), r.od8]
  }

  function Passing(writes: seq<Write>): seq<Write> {
    if writes == [] then []
    else
      var w := writes[|writes| - 1];
      Passing(writes[..|writes| - 1]) + if InRange(w.key.stype, w.value) then [w] else []
  }

  function Concat(levels: seq<seq<Write>>): seq<Write> {
    if levels == [] then [] else Concat(levels[..|levels| - 1]) + levels[|levels| - 1]
  }

  /** The value that should survive: that of the highest level with a reading in range. */
  function LatestPassing(levels: seq<seq<Write>>, key: Key): Option<real> {
    if levels == [] then None
    else
      var top := LastWrite(Passing(levels[|levels| - 1]), key);
      if top.Some? then top else LatestPassing(levels[..|levels| - 1], key)
  }

  ghost predicate AllInRange(table: seq<Sensor>) {
    forall i :: 0 <= i < |table| ==> InRange(table[i].key.stype, table[i].value)
  }

  // ---------------------------------------------------------- the waterfall

  /** A guarded addSensor after the writes done so far: outside the range of its type the reading is dropped. */
  method AddInRange(dev: HardwareDevice, w: Write, ghost start: seq<Sensor>, ghost done: seq<Write>)
    requires dev.devSensors == ApplyAll(start, Passing(done))
    modifies dev
    ensures dev.devSensors == ApplyAll(start, Passing(done + [w]))
  {
    assert (done + [w])[..|done|] == done;
    if InRange(w.key.stype, w.value) {
      dev.AddSensor(w.key.name, w.key.stype, w.value);
      assert Passing(done + [w])[..|Passing(done)|] == Passing(done);
    } else {
      assert Passing(done + [w]) == Passing(done);
    }
  }

  method AddTemperature(dev: HardwareDevice, milli: Option<int>, ghost start: seq<Sensor>, ghost done: seq<Write>)
    requires dev.devSensors == ApplyAll(start, Passing(done))
    modifies dev
    ensures dev.devSensors == ApplyAll(start, Passing(done + Temperature(milli)))
  {
    if milli.Some? {
      AddInRange(dev, Write(CORE_TEMPERATURE, milli.value as real / 1000.0), start, done);
    } else {
      assert done + [] == done;
    }
  }

  method AddStatus(dev: HardwareDevice, a: Option<Activity>, ghost start: seq<Sensor>, ghost done: seq<Write>)
    requires dev.devSensors == ApplyAll(start, Passing(done))
    modifies dev
    ensures dev.devSensors == ApplyAll(start, Passing(done + Status(a)))
  {
    if a.Some? {
      var core := Write(CORE_CLOCK, a.value.engineClock as real * 0.01);
      var mem := Write(MEMORY_CLOCK, a.value.memoryClock as real * 0.01);
      var util := Write(CORE_USAGE, a.value.percent as real);
      AddInRange(dev, core, start, done);
      AddInRange(dev, mem, start, done + [core]);
      AddInRange(dev, util, start, done + [core] + [mem]);
      assert done + [core] + [mem] + [util] == done + Status(a);
    } else {
      assert done + [] == done;
    }
  }

  method AddFan(dev: HardwareDevice, rpm: Option<int>, ghost start: seq<Sensor>, ghost done: seq<Write>)
    requires dev.devSensors == ApplyAll(start, Passing(done))
    modifies dev
    ensures dev.devSensors == ApplyAll(start, Passing(done + Fan(rpm)))
  {
    if rpm.Some? {
      AddInRange(dev, Write(FAN, rpm.value as real), start, done);
    } else {
      assert done + [] == done;
    }
  }

  method AddPower(dev: HardwareDevice, milliwatts: Option<int>, ghost start: seq<Sensor>, ghost done: seq<Write>)
    requires dev.devSensors == ApplyAll(start, Passing(done))
    modifies dev
    ensures dev.devSensors == ApplyAll(start, Passing(done + Power(milliwatts)))
  {
    if milliwatts.Some? {
      AddInRange(dev, Write(POWER_DRAW, milliwatts.value as real / 1000.0), start, done);
    } else {
      assert done + [] == done;
    }
  }

  method FetchOd5(dev: HardwareDevice, r: Readings, ghost start: seq<Sensor>, ghost below: seq<Write>)
    requires dev.devSensors == ApplyAll(start, Passing(below))
    modifies dev
    ensures dev.devSensors == ApplyAll(start, Passing(below + Od5(r)))
  {
    AddTemperature(dev, r.od5Temperature, start, below);
    AddStatus(dev, r.od5Activity, start, below + Temperature(r.od5Temperature));
    AddFan(dev, r.od5Fan, start, below + Temperature(r.od5Temperature) + Status(r.od5Activity));
    Regroup(below, Temperature(r.od5Temperature), Status(r.od5Activity), Fan(r.od5Fan), []);
  }

  method FetchOd6(dev: HardwareDevice, r: Readings, ghost start: seq<Sensor>, ghost below: seq<Write>)
    requires dev.devSensors == ApplyAll(start, Passing(below))
    modifies dev
    ensures dev.devSensors == ApplyAll(start, Passing(below + Od6(r)))
  {
    AddTemperature(dev, r.od6Temperature, start, below);
    AddStatus(dev, r.od6Status, start, below + Temperature(r.od6Temperature));
    AddPower(dev, r.od6Power, start, below + Temperature(r.od6Temperature) + Status(r.od6Status));
    var rpm := if r.od6Fan.Some? && r.od6Fan.value.0 then Some(r.od6Fan.value.1) else None;
    AddFan(dev, rpm, start, below + Temperature(r.od6Temperature) + Status(r.od6Status) + Power(r.od6Power));
    Regroup(below, Temperature(r.od6Temperature), Status(r.od6Status), Power(r.od6Power), Fan(rpm));
  }

  method FetchOdn(dev: HardwareDevice, r: Readings, ghost start: seq<Sensor>, ghost below: seq<Write>)
    requires dev.devSensors == ApplyAll(start, Passing(below))
    modifies dev
    ensures dev.devSensors == ApplyAll(start, Passing(below + Odn(r)))
  {
    AddTemperature(dev, r.odnTemperature, start, below);
    AddStatus(dev, r.odnStatus, start, below + Temperature(r.odnTemperature));
    Regroup(below, Temperature(r.odnTemperature), Status(r.odnStatus), [], []);
  }

  lemma Regroup(below: seq<Write>, a: seq<Write>, b: seq<Write>, c: seq<Write>, d: seq<Write>)
    ensures below + (a + b) == below + a + b
    ensures below + (a + b + c) == below + a + b + c
    ensures below + (a + b + c + d) == below + a + b + c + d
  {}

  method FetchOd8(dev: HardwareDevice, r: Readings, ghost start: seq<Sensor>, ghost below: seq<Write>)
    requires dev.devSensors == ApplyAll(start, Passing(below))
    modifies dev
    ensures dev.devSensors == ApplyAll(start, Passing(below + r.od8))
  {
    Prefixes(below, r.od8);
    for i := 0 to |r.od8|
      invariant dev.devSensors == ApplyAll(start, Passing(below + r.od8[..i]))
    {
      AddInRange(dev, r.od8[i], start, below + r.od8[..i]);
      Snoc(below, r.od8, i);
    }
  }

  lemma Prefixes(below: seq<Write>, s: seq<Write>)
    ensures below + s[..0] == below && below + s[..|s|] == below + s
  {
    assert s[..|s|] == s;
  }

  lemma Snoc(below: seq<Write>, s: seq<Write>, i: nat)
    requires i < |s|
    ensures below + s[..i] + [s[i]] == below + s[..i + 1]
  {}

  /** The four levels in turn; each overwrites what the lower ones left. */
  method FetchAdlMetrics(dev: HardwareDevice, r: Readings)
    modifies dev
    ensures dev.devSensors == ApplyAll(old(dev.devSensors), Passing(Concat(Levels(r))))
  {
    ghost var start := dev.devSensors;
    FetchOd5(dev, r, start, []);
    assert [] + Od5(r) == Od5(r);
    FetchOd6(dev, r, start, Od5(r));
    FetchOdn(dev, r, start, Od5(r) + Od6(r));
    FetchOd8(dev, r, start, Od5(r) + Od6(r) + Odn(r));
    ConcatFour(Levels(r));
  }

  lemma ConcatFour(levels: seq<seq<Write>>)
    requires |levels| == 4
    ensures Concat(levels) == levels[0] + levels[1] + levels[2] + levels[3]
  {
    assert levels[..3][..2] == levels[..2] && levels[..2][..1] == levels[..1] && levels[..1][..0] == [];
    assert Concat(levels[..1]) == levels[0];
    assert Concat(levels[..2]) == levels[0] + levels[1];
    assert Concat(levels[..3]) == levels[0] + levels[1] + levels[2];
  }

  lemma {:induction false} PassingConcat(a: seq<Write>, b: seq<Write>)
    ensures Passing(a + b) == Passing(a) + Passing(b)
  {
    if b == [] {
      assert a + b == a;
    } else {
      assert (a + b)[..|a + b| - 1] == a + b[..|b| - 1];
      PassingConcat(a, b[..|b| - 1]);
    }
  }

  lemma {:induction false} LastWriteConcat(a: seq<Write>, b: seq<Write>, key: Key)
    ensures LastWrite(a + b, key) == if LastWrite(b, key).Some? then LastWrite(b, key) else LastWrite(a, key)
  {
    if b == [] {
      assert a + b == a;
    } else {
      assert (a + b)[..|a + b| - 1] == a + b[..|b| - 1];
      LastWriteConcat(a, b[..|b| - 1], key);
    }
  }

  lemma {:induction false} LastOfLevels(levels: seq<seq<Write>>, key: Key)
    ensures LastWrite(Passing(Concat(levels)), key) == LatestPassing(levels, key)
  {
    if levels != [] {
      var init := levels[..|levels| - 1];
      LastOfLevels(init, key);
      PassingConcat(Concat(init), levels[|levels| - 1]);
      LastWriteConcat(Passing(Concat(init)), Passing(levels[|levels| - 1]), key);
    }
  }

  /**
    After a fetch every key shows the reading of the highest level that passed
    its range check, and its previous value when none did.
   */
  lemma WaterfallKeepsLatest(table: seq<Sensor>, r: Readings, key: Key)
    requires Unique(Keys(table))
    ensures Lookup(ApplyAll(table, Passing(Concat(Levels(r)))), key)
         == if LatestPassing(Levels(r), key).Some? then LatestPassing(Levels(r), key) else Lookup(table, key)
  {
    TableRefinesMap(table, Passing(Concat(Levels(r))));
    LastOfLevels(Levels(r), key);
  }

  lemma {:induction false} PassingInRange(writes: seq<Write>)
    ensures forall k :: 0 <= k < |Passing(writes)| ==> InRange(Passing(writes)[k].key.stype, Passing(writes)[k].value)
  {
    if writes != [] { PassingInRange(writes[..|writes| - 1]); }
  }

  lemma {:induction false} ApplyInRange(table: seq<Sensor>, writes: seq<Write>)
    requires AllInRange(table)
    requires forall k :: 0 <= k < |writes| ==> InRange(writes[k].key.stype, writes[k].value)
    ensures AllInRange(ApplyAll(table, writes))
  {
    if writes != [] { ApplyInRange(table, writes[..|writes| - 1]); }
  }

  function FetchAll(fetches: seq<Readings>): seq<Sensor> {
    if fetches == [] then []
    else ApplyAll(FetchAll(fetches[..|fetches| - 1]), Passing(Concat(Levels(fetches[|fetches| - 1]))))
  }

  /** Over any number of fetches every sensor stays inside the range of its type, under a key of its own. */
  lemma {:induction false} EveryFetchInRange(fetches: seq<Readings>)
    ensures AllInRange(FetchAll(fetches)) && Unique(Keys(FetchAll(fetches)))
  {
    if fetches != [] {
      var init, writes := fetches[..|fetches| - 1], Passing(Concat(Levels(fetches[|fetches| - 1])));
      EveryFetchInRange(init);
      PassingInRange(Concat(Levels(fetches[|fetches| - 1])));
      ApplyInRange(FetchAll(init), writes);
      TableRefinesMap(FetchAll(init), writes);
    }
  }

  // ---------------------------------------------- what the six sensors show

  // The six guards by name, the reference the guarded additions are measured against.

  predicate ValidTemp(v: real) { 0.0 < v < 150.0 }

  predicate ValidClock(v: real) { 0.0 < v < 10000.0 }

  predicate ValidPct(v: real) { 0.0 <= v <= 100.0 }

  predicate ValidPower(v: real) { 0.0 <= v < 1000.0 }

  predicate ValidFan(v: real) { 0.0 <= v < 20000.0 }

  predicate ValidVolt(v: real) { 0.0 <= v < 3.0 }

  /** The device has no sensor of memory size. */
  predicate NeverValid(v: real) { false }

  function Valid(stype: SensorType): real -> bool {
    match stype
    case TEMPERATURE => ValidTemp
    case CLOCK => ValidClock
    case USAGE => ValidPct
    case POWER => ValidPower
    case FAN_SPEED => ValidFan
    case VOLTAGE => ValidVolt
    case MEMORY => NeverValid
  }

  /** A reading if there is one inside the range, else what the levels below left. */
  function Else(reading: Option<real>, ok: real -> bool, below: Option<real>): Option<real> {
    if reading.Some? && ok(reading.value) then reading else below
  }

  function Milli(v: Option<int>): Option<real> {
    if v.None? then None else Some(v.value as real / 1000.0)
  }

  function Engine(a: Option<Activity>): Option<real> {
    if a.None? then None else Some(a.value.engineClock as real / 100.0)
  }

  function Memory(a: Option<Activity>): Option<real> {
    if a.None? then None else Some(a.value.memoryClock as real / 100.0)
  }

  function Busy(a: Option<Activity>): Option<real> {
    if a.None? then None else Some(a.value.percent as real)
  }

  function Rpm(v: Option<int>): Option<real> {
    if v.None? then None else Some(v.value as real)
  }

  /** The reported fan speed counts as one only if it is in rounds per minute. */
  function Rounds(fan: Option<(bool, int)>): Option<real> {
    if fan.Some? && fan.value.0 then Some(fan.value.1 as real) else None
  }

  /** The last PMLog reading of a key inside the range, else what the levels below left. */
  function LastLogged(log: seq<Write>, key: Key, ok: real -> bool, below: Option<real>): Option<real> {
    if log == [] then below
    else
      var w := log[|log| - 1];
      if w.key == key && ok(w.value) then Some(w.value) else LastLogged(log[..|log| - 1], key, ok, below)
  }

  /** What a key shows after these writes, given what it showed before. */
  function After(writes: seq<Write>, key: Key, before: Option<real>): Option<real> {
    if LastWrite(Passing(writes), key).Some? then LastWrite(Passing(writes), key) else before
  }

  lemma AfterConcat(a: seq<Write>, b: seq<Write>, key: Key, before: Option<real>)
    ensures After(a + b, key, before) == After(b, key, After(a, key, before))
  {
    PassingConcat(a, b);
    LastWriteConcat(Passing(a), Passing(b), key);
  }

  lemma AfterOne(w: Write, key: Key, before: Option<real>)
    ensures After([w], key, before) == if w.key == key && InRange(w.key.stype, w.value) then Some(w.value) else before
  {
    PassingConcat([], [w]);
    assert [w][..0] == [] && [] + [w] == [w];
    assert LastWrite([], key) == None;
  }

  lemma AfterThree(x: Write, y: Write, z: Write, key: Key, before: Option<real>)
    ensures After([x, y, z], key, before) == After([z], key, After([y], key, After([x], key, before)))
  {
    AfterConcat([x] + [y], [z], key, before);
    AfterConcat([x], [y], key, before);
    assert [x] + [y] + [z] == [x, y, z];
  }

  /** How the readings of one level change what the six sensors show. */
  lemma TemperatureShows(milli: Option<int>, key: Key, before: Option<real>)
    ensures After(Temperature(milli), key, before)
         == if key == Key("Average Core Temperature", TEMPERATURE) then Else(Milli(milli), ValidTemp, before) else before
  {
    if milli.Some? { AfterOne(Write(CORE_TEMPERATURE, milli.value as real / 1000.0), key, before); }
  }

  lemma StatusShows(a: Option<Activity>, key: Key, before: Option<real>)
    ensures After(Status(a), key, before)
         == if key == Key("Core / Graphics Clock Speed", CLOCK) then Else(Engine(a), ValidClock, before)
            else if key == Key("Memory Clock Speed", CLOCK) then Else(Memory(a), ValidClock, before)
            else if key == Key("Core / Graphics Utilization", USAGE) then Else(Busy(a), ValidPct, before)
            else before
  {
    if a.Some? {
      var v := a.value;
      var x, y, z := Write(CORE_CLOCK, v.engineClock as real * 0.01), Write(MEMORY_CLOCK, v.memoryClock as real * 0.01),
                     Write(CORE_USAGE, v.percent as real);
      assert Status(a) == [x, y, z];
      AfterThree(x, y, z, key, before);
      AfterOne(x, key, before);
      AfterOne(y, key, After([x], key, before));
      AfterOne(z, key, After([y], key, After([x], key, before)));
    }
  }

  lemma FanShows(rpm: Option<int>, key: Key, before: Option<real>)
    ensures After(Fan(rpm), key, before)
         == if key == Key("Fan Speed", FAN_SPEED) then Else(Rpm(rpm), ValidFan, before) else before
  {
    if rpm.Some? { AfterOne(Write(FAN, rpm.value as real), key, before); }
  }

  lemma PowerShows(milliwatts: Option<int>, key: Key, before: Option<real>)
    ensures After(Power(milliwatts), key, before)
         == if key == Key("GPU Power Draw", POWER) then Else(Milli(milliwatts), ValidPower, before) else before
  {
    if milliwatts.Some? { AfterOne(Write(POWER_DRAW, milliwatts.value as real / 1000.0), key, before); }
  }

  lemma {:induction false} LogShows(log: seq<Write>, key: Key, ok: real -> bool, before: Option<real>)
    requires forall v :: ok(v) <==> InRange(key.stype, v)
    ensures After(log, key, before) == LastLogged(log, key, ok, before)
  {
    if log != [] {
      var n := |log| - 1;
      LogShows(log[..n], key, ok, before);
      assert log == log[..n] + [log[n]];
      AfterConcat(log[..n], [log[n]], key, before);
      AfterOne(log[n], key, After(log[..n], key, before));
    }
  }

  lemma FourLevels(table: seq<Sensor>, r: Readings, key: Key)
    requires Unique(Keys(table))
    ensures Lookup(ApplyAll(table, Passing(Concat(Levels(r)))), key)
         == After(r.od8, key, After(Odn(r), key, After(Od6(r), key, After(Od5(r), key, Lookup(table, key)))))
  {
    var before := Lookup(table, key);
    TableRefinesMap(table, Passing(Concat(Levels(r))));
    ConcatFour(Levels(r));
    AfterConcat(Od5(r) + Od6(r) + Odn(r), r.od8, key, before);
    AfterConcat(Od5(r) + Od6(r), Odn(r), key, before);
    AfterConcat(Od5(r), Od6(r), key, before);
  }

  lemma LevelsShow(r: Readings, key: Key, before: Option<real>)
    ensures After(Od5(r), key, before)
         == After(Fan(r.od5Fan), key, After(Status(r.od5Activity), key, After(Temperature(r.od5Temperature), key, before)))
    ensures After(Od6(r), key, before)
         == After(Fan(if r.od6Fan.Some? && r.od6Fan.value.0 then Some(r.od6Fan.value.1) else None), key,
                  After(Power(r.od6Power), key, After(Status(r.od6Status), key, After(Temperature(r.od6Temperature), key, before))))
    ensures After(Odn(r), key, before) == After(Status(r.odnStatus), key, After(Temperature(r.odnTemperature), key, before))
  {
    var fan := if r.od6Fan.Some? && r.od6Fan.value.0 then Some(r.od6Fan.value.1) else None;
    AfterConcat(Temperature(r.od5Temperature) + Status(r.od5Activity), Fan(r.od5Fan), key, before);
    AfterConcat(Temperature(r.od5Temperature), Status(r.od5Activity), key, before);
    AfterConcat(Temperature(r.od6Temperature) + Status(r.od6Status) + Power(r.od6Power), Fan(fan), key, before);
    AfterConcat(Temperature(r.od6Temperature) + Status(r.od6Status), Power(r.od6Power), key, before);
    AfterConcat(Temperature(r.od6Temperature), Status(r.od6Status), key, before);
    AfterConcat(Temperature(r.odnTemperature), Status(r.odnStatus), key, before);
  }

  /** The core temperature: of the logged readings, or of overdrive N, 6 and 5, the first that is above 0 and below 150 degrees. */
  lemma TemperatureKept(table: seq<Sensor>, r: Readings)
    requires Unique(Keys(table))
    ensures var key := Key("Average Core Temperature", TEMPERATURE);
            Lookup(ApplyAll(table, Passing(Concat(Levels(r)))), key)
            == LastLogged(r.od8, key, ValidTemp,
                 Else(Milli(r.odnTemperature), ValidTemp,
                   Else(Milli(r.od6Temperature), ValidTemp,
                     Else(Milli(r.od5Temperature), ValidTemp, Lookup(table, key)))))
  {
    var key := Key("Average Core Temperature", TEMPERATURE);
    WhatIsKept(table, r, key);
  }

  lemma CoreClockKept(table: seq<Sensor>, r: Readings)
    requires Unique(Keys(table))
    ensures var key := Key("Core / Graphics Clock Speed", CLOCK);
            Lookup(ApplyAll(table, Passing(Concat(Levels(r)))), key)
            == LastLogged(r.od8, key, ValidClock,
                 Else(Engine(r.odnStatus), ValidClock,
                   Else(Engine(r.od6Status), ValidClock, Else(Engine(r.od5Activity), ValidClock, Lookup(table, key)))))
  {
    WhatIsKept(table, r, Key("Core / Graphics Clock Speed", CLOCK));
  }

  lemma MemoryClockKept(table: seq<Sensor>, r: Readings)
    requires Unique(Keys(table))
    ensures var key := Key("Memory Clock Speed", CLOCK);
            Lookup(ApplyAll(table, Passing(Concat(Levels(r)))), key)
            == LastLogged(r.od8, key, ValidClock,
                 Else(Memory(r.odnStatus), ValidClock,
                   Else(Memory(r.od6Status), ValidClock, Else(Memory(r.od5Activity), ValidClock, Lookup(table, key)))))
  {
    WhatIsKept(table, r, Key("Memory Clock Speed", CLOCK));
  }

  lemma UtilizationKept(table: seq<Sensor>, r: Readings)
    requires Unique(Keys(table))
    ensures var key := Key("Core / Graphics Utilization", USAGE);
            Lookup(ApplyAll(table, Passing(Concat(Levels(r)))), key)
            == LastLogged(r.od8, key, ValidPct,
                 Else(Busy(r.odnStatus), ValidPct,
                   Else(Busy(r.od6Status), ValidPct, Else(Busy(r.od5Activity), ValidPct, Lookup(table, key)))))
  {
    WhatIsKept(table, r, Key("Core / Graphics Utilization", USAGE));
  }

  /** Overdrive N has no fan, and that of overdrive 6 counts only in rounds per minute. */
  lemma FanKept(table: seq<Sensor>, r: Readings)
    requires Unique(Keys(table))
    ensures var key := Key("Fan Speed", FAN_SPEED);
            Lookup(ApplyAll(table, Passing(Concat(Levels(r)))), key)
            == LastLogged(r.od8, key, ValidFan,
                 Else(Rounds(r.od6Fan), ValidFan, Else(Rpm(r.od5Fan), ValidFan, Lookup(table, key))))
  {
    WhatIsKept(table, r, Key("Fan Speed", FAN_SPEED));
  }

  lemma PowerKept(table: seq<Sensor>, r: Readings)
    requires Unique(Keys(table))
    ensures var key := Key("GPU Power Draw", POWER);
            Lookup(ApplyAll(table, Passing(Concat(Levels(r)))), key)
            == LastLogged(r.od8, key, ValidPower, Else(Milli(r.od6Power), ValidPower, Lookup(table, key)))
  {
    WhatIsKept(table, r, Key("GPU Power Draw", POWER));
  }

  predicate IsWaterfallKey(key: Key) {
    || key == Key("Average Core Temperature", TEMPERATURE) || key == Key("Core / Graphics Clock Speed", CLOCK)
    || key == Key("Memory Clock Speed", CLOCK) || key == Key("Core / Graphics Utilization", USAGE)
    || key == Key("Fan Speed", FAN_SPEED) || key == Key("GPU Power Draw", POWER)
  }

  /** Every other sensor shows its last logged reading in range, and keeps what it showed where there is none. */
  lemma OthersAreLogged(table: seq<Sensor>, r: Readings, key: Key)
    requires Unique(Keys(table)) && !IsWaterfallKey(key)
    ensures Lookup(ApplyAll(table, Passing(Concat(Levels(r)))), key)
         == LastLogged(r.od8, key, Valid(key.stype), Lookup(table, key))
  {
    WhatIsKept(table, r, key);
  }

  /** What a level leaves of a sensor. */
  function LevelKeeps(temperature: Option<int>, status: Option<Activity>, power: Option<int>, fan: Option<real>,
                      key: Key, below: Option<real>): Option<real> {
    if key == Key("Average Core Temperature", TEMPERATURE) then Else(Milli(temperature), ValidTemp, below)
    else if key == Key("Core / Graphics Clock Speed", CLOCK) then Else(Engine(status), ValidClock, below)
    else if key == Key("Memory Clock Speed", CLOCK) then Else(Memory(status), ValidClock, below)
    else if key == Key("Core / Graphics Utilization", USAGE) then Else(Busy(status), ValidPct, below)
    else if key == Key("GPU Power Draw", POWER) then Else(Milli(power), ValidPower, below)
    else if key == Key("Fan Speed", FAN_SPEED) then Else(fan, ValidFan, below)
    else below
  }

  lemma WhatIsKept(table: seq<Sensor>, r: Readings, key: Key)
    requires Unique(Keys(table))
    ensures Lookup(ApplyAll(table, Passing(Concat(Levels(r)))), key)
         == LastLogged(r.od8, key, Valid(key.stype),
              LevelKeeps(r.odnTemperature, r.odnStatus, None, None, key,
                LevelKeeps(r.od6Temperature, r.od6Status, r.od6Power, Rounds(r.od6Fan), key,
                  LevelKeeps(r.od5Temperature, r.od5Activity, None, Rpm(r.od5Fan), key, Lookup(table, key)))))
  {
    FourLevels(table, r, key);
    LevelsKeep(r, key, Lookup(table, key));
  }

  lemma LevelsKeep(r: Readings, key: Key, before: Option<real>)
    ensures After(r.od8, key, After(Odn(r), key, After(Od6(r), key, After(Od5(r), key, before))))
         == LastLogged(r.od8, key, Valid(key.stype),
              LevelKeeps(r.odnTemperature, r.odnStatus, None, None, key,
                LevelKeeps(r.od6Temperature, r.od6Status, r.od6Power, Rounds(r.od6Fan), key,
                  LevelKeeps(r.od5Temperature, r.od5Activity, None, Rpm(r.od5Fan), key, before))))
  {
    var od5 := LevelKeeps(r.od5Temperature, r.od5Activity, None, Rpm(r.od5Fan), key, before);
    var od6 := LevelKeeps(r.od6Temperature, r.od6Status, r.od6Power, Rounds(r.od6Fan), key, od5);
    var odn := LevelKeeps(r.odnTemperature, r.odnStatus, None, None, key, od6);
    Od5Shows(r, key, before);
    Od6Shows(r, key, od5);
    OdnShows(r, key, od6);
    Chain(Od5(r), Od6(r), Odn(r), r.od8, key, before, od5, od6, odn);
  }

  lemma Chain(a: seq<Write>, b: seq<Write>, c: seq<Write>, log: seq<Write>, key: Key, before: Option<real>,
              od5: Option<real>, od6: Option<real>, odn: Option<real>)
    requires After(a, key, before) == od5 && After(b, key, od5) == od6 && After(c, key, od6) == odn
    ensures After(log, key, After(c, key, After(b, key, After(a, key, before)))) == LastLogged(log, key, Valid(key.stype), odn)
  {
    LogShows(log, key, Valid(key.stype), odn);
  }

  lemma Od5Shows(r: Readings, key: Key, before: Option<real>)
    ensures After(Od5(r), key, before) == LevelKeeps(r.od5Temperature, r.od5Activity, None, Rpm(r.od5Fan), key, before)
  {
    var t := After(Temperature(r.od5Temperature), key, before);
    var s := After(Status(r.od5Activity), key, t);
    LevelsShow(r, key, before);
    TemperatureShows(r.od5Temperature, key, before);
    StatusShows(r.od5Activity, key, t);
    FanShows(r.od5Fan, key, s);
  }

  lemma Od6Shows(r: Readings, key: Key, before: Option<real>)
    ensures After(Od6(r), key, before) == LevelKeeps(r.od6Temperature, r.od6Status, r.od6Power, Rounds(r.od6Fan), key, before)
  {
    var t := After(Temperature(r.od6Temperature), key, before);
    var s := After(Status(r.od6Status), key, t);
    LevelsShow(r, key, before);
    TemperatureShows(r.od6Temperature, key, before);
    StatusShows(r.od6Status, key, t);
    PowerShows(r.od6Power, key, s);
    FanShows(if r.od6Fan.Some? && r.od6Fan.value.0 then Some(r.od6Fan.value.1) else None, key, After(Power(r.od6Power), key, s));
  }

  lemma OdnShows(r: Readings, key: Key, before: Option<real>)
    ensures After(Odn(r), key, before) == LevelKeeps(r.odnTemperature, r.odnStatus, None, None, key, before)
  {
    LevelsShow(r, key, before);
    TemperatureShows(r.odnTemperature, key, before);
    var t := After(Temperature(r.odnTemperature), key, before);
    StatusShows(r.odnStatus, key, t);
    assert key.stype != TEMPERATURE ==> t == before;
    assert key.stype != CLOCK && key.stype != USAGE ==> After(Status(r.odnStatus), key, t) == t;
  }
}
