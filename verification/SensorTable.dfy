/**
  The sensor list of a device: an upsert vector standing for a map that
  remembers the order of first insertion, and the CPU device that fills it
  from driver entries.
 */
module SensorTable {
  import opened Words
  import opened CoreName
  import opened CpuDriver

  datatype SensorType = CLOCK | USAGE | TEMPERATURE | POWER | MEMORY | VOLTAGE | FAN_SPEED

  datatype Key = Key(name: string, stype: SensorType)

  datatype Sensor = Sensor(key: Key, value: real)

  /** One addSensor call. */
  datatype Write = Write(key: Key, value: real)

  // ----------------------------------------------- the list as a function

  function IndexOf(table: seq<Sensor>, key: Key): (i: nat)
    ensures i <= |table|
    ensures i < |table| ==> table[i].key == key
    ensures forall j :: 0 <= j < i ==> table[j].key != key
  {
    if table == [] || table[0].key == key then 0 else 1 + IndexOf(table[1..], key)
  }

  /** Update the first sensor of that name and type, or append one. */
  function Upsert(table: seq<Sensor>, w: Write): seq<Sensor> {
    var i := IndexOf(table, w.key);
    if i < |table| then table[i := Sensor(w.key, w.value)] else table + [Sensor(w.key, w.value)]
  }

  function ApplyAll(table: seq<Sensor>, writes: seq<Write>): seq<Sensor> {
    if writes == [] then table else Upsert(ApplyAll(table, writes[..|writes| - 1]), writes[|writes| - 1])
  }

  function Keys(table: seq<Sensor>): (r: seq<Key>)
    ensures |r| == |table| && forall i :: 0 <= i < |r| ==> r[i] == table[i].key
  {
    seq(|table|, i requires 0 <= i < |table| => table[i].key)
  }

  ghost predicate Unique<T(!new)>(s: seq<T>) {
    forall i, j :: 0 <= i < j < |s| ==> s[i] != s[j]
  }

  // -------------------------------------------- the map it stands for

  /** Keys in order of first occurrence, after those already there. */
  function FirstInsertions(keys: seq<Key>, writes: seq<Write>): seq<Key> {
    if writes == [] then keys
    else
      var before := FirstInsertions(keys, writes[..|writes| - 1]);
      var key := writes[|writes| - 1].key;
      if key in before then before else before + [key]
  }

  /** The last value written to a key, if any. */
  function LastWrite(writes: seq<Write>, key: Key): Option<real> {
    if writes == [] then None
    else if writes[|writes| - 1].key == key then Some(writes[|writes| - 1].value)
    else LastWrite(writes[..|writes| - 1], key)
  }

  function Lookup(table: seq<Sensor>, key: Key): Option<real> {
    var i := IndexOf(table, key);
    if i < |table| then Some(table[i].value) else None
  }

  lemma UpsertRefines(table: seq<Sensor>, w: Write)
    requires Unique(Keys(table))
    ensures var after := Upsert(table, w);
            && Unique(Keys(after))
            && Keys(after) == (if w.key in Keys(table) then Keys(table) else Keys(table) + [w.key])
            && forall key :: Lookup(after, key) == if key == w.key then Some(w.value) else Lookup(table, key)
  {
    var i, after := IndexOf(table, w.key), Upsert(table, w);
    if i < |table| {
      assert Keys(table)[i] == w.key;
      assert Keys(after) == Keys(table);
    } else {
      assert w.key !in Keys(table);
      assert Keys(after) == Keys(table) + [w.key];
    }
    forall key ensures Lookup(after, key) == if key == w.key then Some(w.value) else Lookup(table, key) {
      if i < |table| { SameIndex(table, after, key); } else { IndexInExtension(table, Sensor(w.key, w.value), key); }
    }
  }

  /** The position of a key depends on the keys alone. */
  lemma {:induction false} SameIndex(a: seq<Sensor>, b: seq<Sensor>, key: Key)
    requires |a| == |b| && forall j :: 0 <= j < |a| ==> a[j].key == b[j].key
    ensures IndexOf(a, key) == IndexOf(b, key)
  {
    if a != [] { SameIndex(a[1..], b[1..], key); }
  }

  lemma {:induction false} IndexInExtension(table: seq<Sensor>, s: Sensor, key: Key)
    ensures IndexOf(table + [s], key)
         == if IndexOf(table, key) < |table| then IndexOf(table, key) else if s.key == key then |table| else |table| + 1
  {
    if table != [] {
      assert (table + [s])[1..] == table[1..] + [s];
      IndexInExtension(table[1..], s, key);
    }
  }

  /**
    After any sequence of addSensor calls the list is the insertion-ordered
    map: unique keys, order of first insertion, last written values.
   */
  lemma {:induction false} TableRefinesMap(table: seq<Sensor>, writes: seq<Write>)
    requires Unique(Keys(table))
    ensures var after := ApplyAll(table, writes);
            && Unique(Keys(after)) && Keys(after) == FirstInsertions(Keys(table), writes)
            && forall key :: Lookup(after, key) ==
                 if LastWrite(writes, key).Some? then LastWrite(writes, key) else Lookup(table, key)
  {
    if writes != [] {
      var init := writes[..|writes| - 1];
      TableRefinesMap(table, init);
      UpsertRefines(ApplyAll(table, init), writes[|writes| - 1]);
    }
  }

  lemma {:induction false} ApplyAllConcat(table: seq<Sensor>, a: seq<Write>, b: seq<Write>)
    ensures ApplyAll(table, a + b) == ApplyAll(ApplyAll(table, a), b)
  {
    if b == [] {
      assert a + b == a;
    } else {
      assert (a + b)[..|a + b| - 1] == a + b[..|b| - 1];
      ApplyAllConcat(table, a, b[..|b| - 1]);
    }
  }

  // ------------------------------------------------------------ the device

  class HardwareDevice {
    var devSensors: seq<Sensor>

    constructor ()
      ensures devSensors == []
    {
      devSensors := [];
    }

    method AddSensor(name: string, stype: SensorType, value: real)
      modifies this
      ensures devSensors == Upsert(old(devSensors), Write(Key(name, stype), value))
    {
      var i := 0;
      while i < |devSensors|
        invariant 0 <= i <= |devSensors| && devSensors == old(devSensors)
        invariant forall j :: 0 <= j < i ==> devSensors[j].key != Key(name, stype)
      {
        if devSensors[i].key.name == name && devSensors[i].key.stype == stype {
          assert IndexOf(devSensors, Key(name, stype)) == i;
          devSensors := devSensors[i := devSensors[i].(value := value)];
          return;
        }
        i := i + 1;
      }
      devSensors := devSensors + [Sensor(Key(name, stype), value)];
    }

    /** One driver entry: scale the value, dispatch on the metric type. */
    method AddEntry(entry: CpuData)
      modifies this
      ensures devSensors == match TypeOf(entry.mtype)
        case None => old(devSensors)
        case Some(stype) => Upsert(old(devSensors), Write(Key(CString(entry.name), stype), Scaled(entry)))
    {
      var name := CString(entry.name);
      var value := entry.value as real;
      if entry.unit == UNIT_MILLIWATTS {
        value := value / 1000.0;
      } else if entry.unit == UNIT_MILLIVOLTS {
        value := value / 1000.0;
      }
      if entry.mtype == METRIC_TEMP {
        AddSensor(name, TEMPERATURE, value);
      } else if entry.mtype == METRIC_VOLTAGE {
        AddSensor(name, VOLTAGE, value);
      } else if entry.mtype == METRIC_CLOCK_SPEED {
        AddSensor(name, CLOCK, value);
      } else if entry.mtype == METRIC_LOAD {
        AddSensor(name, USAGE, value);
      } else if entry.mtype == METRIC_POWER {
        AddSensor(name, POWER, value);
      }
    }

    /** fetchMetrics of the CPU device over the entries the driver client returned. */
    method FetchMetrics(entries: seq<CpuData>)
      modifies this
      ensures devSensors == ApplyAll(old(devSensors), EntryWrites(entries))
    {
      for i := 0 to |entries|
        invariant devSensors == ApplyAll(old(devSensors), EntryWrites(entries[..i]))
      {
        AddEntry(entries[i]);
        assert entries[..i + 1][..i] == entries[..i];
        AppendEntry(old(devSensors), EntryWrites(entries[..i]), entries[i]);
      }
      assert entries[..|entries|] == entries;
    }
  }

  function TypeOf(mtype: u16): Option<SensorType> {
    if mtype == METRIC_TEMP then Some(TEMPERATURE)
    else if mtype == METRIC_VOLTAGE then Some(VOLTAGE)
    else if mtype == METRIC_CLOCK_SPEED then Some(CLOCK)
    else if mtype == METRIC_LOAD then Some(USAGE)
    else if mtype == METRIC_POWER then Some(POWER)
    else None
  }

  function Scaled(entry: CpuData): real {
    if entry.unit == UNIT_MILLIWATTS || entry.unit == UNIT_MILLIVOLTS then entry.value as real / 1000.0
    else entry.value as real
  }

  function EntryWrite(entry: CpuData): seq<Write> {
    match TypeOf(entry.mtype)
    case None => []
    case Some(stype) => [Write(Key(CString(entry.name), stype), Scaled(entry))]
  }

  function EntryWrites(entries: seq<CpuData>): seq<Write> {
    if entries == [] then [] else EntryWrites(entries[..|entries| - 1]) + EntryWrite(entries[|entries| - 1])
  }

  lemma AppendEntry(table: seq<Sensor>, writes: seq<Write>, entry: CpuData)
    ensures ApplyAll(table, writes + EntryWrite(entry))
         == match TypeOf(entry.mtype)
            case None => ApplyAll(table, writes)
            case Some(stype) => Upsert(ApplyAll(table, writes), Write(Key(CString(entry.name), stype), Scaled(entry)))
  {
    ApplyAllConcat(table, writes, EntryWrite(entry));
    if TypeOf(entry.mtype).Some? {
      assert EntryWrite(entry)[..0] == [];
      assert ApplyAll(ApplyAll(table, writes), []) == ApplyAll(table, writes);
    }
  }
}
