/**
  The control center's side of the grid: devices found on the server are
  cached under their node id, and every sensor update of a cached device
  becomes a row. The row is filed under the client folder and the device's
  hardware type, not under the device.
 */
module ControlCenter {
  import opened Words
  import opened OrderedMap
  import opened DisplayGrid
  import opened Screen

  /** A decoded sensor, its value formatted. */
  datatype SensorText = SensorText(name: string, value: string, unit: string)

  datatype DeviceInfo = DeviceInfo(name: string, vendor: string, hardwareType: string)

  datatype DeviceCache = DeviceCache(folder: string, info: DeviceInfo)

  type Cache = map<string, DeviceCache>

  function SensorField(sensor: SensorText): (string, string) {
    ("  " + sensor.name, if sensor.unit == "" then sensor.value else sensor.value + " " + sensor.unit)
  }

  function SensorFields(sensors: seq<SensorText>): (r: ClientRow)
    ensures |r| == |sensors| && forall i :: 0 <= i < |r| ==> r[i] == SensorField(sensors[i])
  {
    seq(|sensors|, i requires 0 <= i < |sensors| => SensorField(sensors[i]))
  }

  /** The device's title, then one field per sensor. */
  function RowFor(info: DeviceInfo, sensors: seq<SensorText>): ClientRow {
    [(info.name + " (" + info.hardwareType + ")", "")] + SensorFields(sensors)
  }

  // ------------------------------------------------------------- event runs

  datatype CenterEvent =
    | Discovered(id: string, device: DeviceCache)
    | SensorsChanged(id: string, sensors: seq<SensorText>)
    | Tick

  datatype Center = Center(cache: Cache, grid: GridState)

  /** A device is cached when it is first discovered, and stays as it was then. */
  function Cached(cache: Cache, id: string, device: DeviceCache): Cache {
    if id in cache then cache else cache[id := device]
  }

  function CenterStep(c: Center, e: CenterEvent): Center {
    match e
    case Discovered(id, device) => c.(cache := Cached(c.cache, id, device))
    case SensorsChanged(id, sensors) =>
      if id !in c.cache then c
      else
        var device := c.cache[id];
        c.(grid := GridStep(c.grid, Update(device.folder, device.info.hardwareType, RowFor(device.info, sensors))))
    case Tick => c.(grid := GridStep(c.grid, Render))
  }

  function CenterRun(events: seq<CenterEvent>): Center {
    if events == [] then Center(map[], GridRun([]))
    else CenterStep(CenterRun(events[..|events| - 1]), events[|events| - 1])
  }

  /** The device a node id stands for: the first one discovered under it. */
  function DeviceOf(events: seq<CenterEvent>, id: string): Option<DeviceCache> {
    if events == [] then None
    else
      var before, e := DeviceOf(events[..|events| - 1], id), events[|events| - 1];
      if before.None? && e.Discovered? && e.id == id then Some(e.device) else before
  }

  predicate IsOfType(device: Option<DeviceCache>, folder: string, hardwareType: string) {
    device.Some? && device.value.folder == folder && device.value.info.hardwareType == hardwareType
  }

  /** What an update says of a device. */
  datatype Telemetry = Telemetry(info: DeviceInfo, sensors: seq<SensorText>)

  /** The last update among all devices of one type on one client. */
  function LastOfType(events: seq<CenterEvent>, folder: string, hardwareType: string): Option<Telemetry> {
    if events == [] then None
    else
      var init, e := events[..|events| - 1], events[|events| - 1];
      if e.SensorsChanged? && IsOfType(DeviceOf(init, e.id), folder, hardwareType)
      then Some(Telemetry(DeviceOf(init, e.id).value.info, e.sensors))
      else LastOfType(init, folder, hardwareType)
  }

  /**
    After any run of discoveries, updates and ticks the grid holds, for every
    client and hardware type, the row of the last update of any of its devices
    of that type - and no other rows.
   */
  lemma {:induction false} RowsAreLastOfType(events: seq<CenterEvent>, folder: string, hardwareType: string)
    ensures RowsSorted(CenterRun(events).grid.rows)
    ensures RowOf(CenterRun(events).grid.rows, folder, hardwareType)
         == match LastOfType(events, folder, hardwareType) case None => None case Some(t) => Some(RowFor(t.info, t.sensors))
  {
    if events != [] {
      var init, e := events[..|events| - 1], events[|events| - 1];
      var c := CenterRun(init);
      RowsAreLastOfType(init, folder, hardwareType);
      if e.SensorsChanged? {
        CacheNamesFirst(init, e.id);
        if e.id in c.cache {
          var device := c.cache[e.id];
          UpdateLaws(c.grid.rows, device.folder, device.info.hardwareType, RowFor(device.info, e.sensors));
        }
      }
    }
  }

  lemma {:induction false} CacheNamesFirst(events: seq<CenterEvent>, id: string)
    ensures DeviceOf(events, id) == if id in CenterRun(events).cache then Some(CenterRun(events).cache[id]) else None
  {
    if events != [] { CacheNamesFirst(events[..|events| - 1], id); }
  }

  /**
    So of two devices on one client, updated one after the other in whatever
    state, both keep their row exactly when their hardware types differ: two
    GPUs share one.
   */
  lemma SameTypeSharesARow(events: seq<CenterEvent>, id1: string, sensors1: seq<SensorText>, id2: string, sensors2: seq<SensorText>)
    requires DeviceOf(events, id1).Some? && DeviceOf(events, id2).Some?
    requires DeviceOf(events, id1).value.folder == DeviceOf(events, id2).value.folder
    requires RowFor(DeviceOf(events, id1).value.info, sensors1) != RowFor(DeviceOf(events, id2).value.info, sensors2)
    ensures var d1, d2 := DeviceOf(events, id1).value, DeviceOf(events, id2).value;
            var rows := CenterRun(events + [SensorsChanged(id1, sensors1), SensorsChanged(id2, sensors2)]).grid.rows;
            && RowOf(rows, d2.folder, d2.info.hardwareType) == Some(RowFor(d2.info, sensors2))
            && (RowOf(rows, d1.folder, d1.info.hardwareType) == Some(RowFor(d1.info, sensors1))
                <==> d1.info.hardwareType != d2.info.hardwareType)
  {
    var d1, d2 := DeviceOf(events, id1).value, DeviceOf(events, id2).value;
    var one := events + [SensorsChanged(id1, sensors1)];
    var both := events + [SensorsChanged(id1, sensors1), SensorsChanged(id2, sensors2)];
    assert one[..|events|] == events && both[..|both| - 1] == one;
    RowsAreLastOfType(both, d1.folder, d1.info.hardwareType);
    RowsAreLastOfType(both, d2.folder, d2.info.hardwareType);
  }

  lemma RowStep(info: DeviceInfo, sensors: seq<SensorText>, i: nat)
    requires i < |sensors|
    ensures RowFor(info, sensors[..i + 1]) == RowFor(info, sensors[..i]) + [SensorField(sensors[i])]
  {
    assert SensorFields(sensors[..i + 1]) == SensorFields(sensors[..i]) + [SensorField(sensors[i])];
  }

  // ---------------------------------------------------------- on the screen

  lemma {:induction false} EntryOf<V>(m: OMap<V>, key: string) returns (i: nat)
    requires Get(m, key).Some?
    ensures i < |m| && m[i] == (key, Get(m, key).value)
  {
    if m[0].0 == key {
      i := 0;
    } else {
      i := EntryOf(m[1..], key);
      i := i + 1;
    }
  }

  /** The line of a sensor. */
  function SensorLine(s: SensorText): string {
    "  " + s.name + if s.unit != "" then ": " + s.value + " " + s.unit else if s.value != "" then ": " + s.value else ""
  }

  /** A device's lines: its title, then its sensors. */
  function TelemetryLines(t: Telemetry): (lines: seq<string>)
    ensures |lines| == 1 + |t.sensors|
  {
    [t.info.name + " (" + t.info.hardwareType + ")"] + SensorLines(t.sensors)
  }

  function SensorLines(sensors: seq<SensorText>): (lines: seq<string>)
    ensures |lines| == |sensors| && forall i :: 0 <= i < |lines| ==> lines[i] == SensorLine(sensors[i])
  {
    seq(|sensors|, i requires 0 <= i < |sensors| => SensorLine(sensors[i]))
  }

  /**
    After any run, the frame shows the last update of every hardware type of
    every client: below the client's name, in its column, a title and one line
    per sensor.
   */
  lemma LastOfTypeIsOnScreen(events: seq<CenterEvent>, folder: string, hardwareType: string)
    returns (c: nat, d: nat, widths: seq<nat>, lines: seq<string>)
    requires LastOfType(events, folder, hardwareType).Some?
    ensures var rows := CenterRun(events).grid.rows;
            && ScreenShows(rows, widths, lines) && Frame(rows) == Join(lines)
            && c < |rows| && rows[c].0 == folder && d < |rows[c].1| && rows[c].1[d].0 == hardwareType
            && TextsShown(lines[2..], Depth(rows[c].1[..d]), Offset(widths, c), widths[c],
                          TelemetryLines(LastOfType(events, folder, hardwareType).value))
  {
    var rows, t := CenterRun(events).grid.rows, LastOfType(events, folder, hardwareType).value;
    RowsAreLastOfType(events, folder, hardwareType);
    c, d := PlaceOf(rows, folder, hardwareType);
    widths, lines := EveryFieldIsShown(rows);
    RowReads(t);
    RowIsShown(lines[2..], Offset(widths, c), widths[c], rows[c].1, d, TelemetryLines(t));
  }

  lemma PlaceOf(rows: Rows, folder: string, hardwareType: string) returns (c: nat, d: nat)
    requires RowOf(rows, folder, hardwareType).Some?
    ensures c < |rows| && rows[c].0 == folder && d < |rows[c].1|
    ensures rows[c].1[d] == (hardwareType, RowOf(rows, folder, hardwareType).value)
  {
    c := EntryOf(rows, folder);
    d := EntryOf(rows[c].1, hardwareType);
  }

  /** What the fields of a row read. */
  lemma RowReads(t: Telemetry)
    ensures Reads(RowFor(t.info, t.sensors), TelemetryLines(t))
  {
    var row, lines := RowFor(t.info, t.sensors), TelemetryLines(t);
    forall f | 0 <= f < |row| ensures FieldText(row[f]) == lines[f] {
      if f > 0 {
        assert row[f] == SensorField(t.sensors[f - 1]);
        FieldReads(t.sensors[f - 1]);
      }
    }
  }

  lemma FieldReads(s: SensorText)
    ensures FieldText(SensorField(s)) == SensorLine(s)
  {
    if s.unit != "" {
      assert s.value + " " + s.unit != "";
      assert ": " + (s.value + " " + s.unit) == ": " + s.value + " " + s.unit;
    }
  }

  // -------------------------------------------------------------- the client

  class ControlCenterClient {
    const grid: DisplayGrid
    var cache: Cache

    constructor (grid: DisplayGrid)
      requires grid.State() == GridRun([])
      ensures this.grid == grid && State() == CenterRun([])
    {
      this.grid, cache := grid, map[];
    }

    ghost function State(): Center
      reads this, grid
    {
      Center(cache, grid.State())
    }

    /** One device node with sensors that discovery comes across. */
    method Discover(id: string, device: DeviceCache)
      modifies this
      ensures State() == CenterStep(old(State()), Discovered(id, device))
    {
      if id in cache { return; }
      cache := cache[id := device];
    }

    method HandleSensorUpdate(id: string, sensors: seq<SensorText>)
      modifies grid
      ensures State() == CenterStep(old(State()), SensorsChanged(id, sensors))
    {
      if id !in cache { return; }
      var device := cache[id];
      var row := [(device.info.name + " (" + device.info.hardwareType + ")", "")];
      for i := 0 to |sensors|
        invariant row == RowFor(device.info, sensors[..i]) && State() == old(State())
      {
        var text := sensors[i].value;
        if sensors[i].unit != "" {
          text := text + " " + sensors[i].unit;
        }
        row := row + [("  " + sensors[i].name, text)];
        RowStep(device.info, sensors, i);
      }
      assert sensors[..|sensors|] == sensors;
      grid.Update(device.folder, device.info.hardwareType, row);
    }
  }
}
