/**
  Sensor payloads: buildTelemetryStore turns a snapshot into extension objects
  holding SensorDto structures, decodeSensorDtos walks such structures member
  by member using the paddings of the data type. Memory is modelled as typed
  cells at byte offsets; the SDK's copy and binary decoder are inputs.
 */
module PayloadCodec {
  import opened Words
  import opened Publisher

  const STRING_SIZE: nat := 16
  const FLOAT_SIZE: nat := 4

  /** UA_String with a null or a real data pointer, or a float. */
  datatype Cell = UaString(data: Option<string>) | UaFloat(value: real)

  type Memory = map<nat, Cell>

  datatype SensorDto = SensorDto(name: Option<string>, value: real, unit: Option<string>, sensorType: Option<string>)

  datatype DecodedSensor = DecodedSensor(name: string, value: real, unit: string, sensorType: string)

  /** members[i].padding and memSize, as the type builder computes them. */
  datatype DataType = DataType(p0: nat, p1: nat, p2: nat, p3: nat, memSize: nat)

  /** Where a compiler put the four members. */
  datatype Offsets = Offsets(name: nat, value: nat, unit: nat, sensorType: nat, size: nat)

  predicate Laid(o: Offsets) {
    && o.name + STRING_SIZE <= o.value && o.value + FLOAT_SIZE <= o.unit
    && o.unit + STRING_SIZE <= o.sensorType && o.sensorType + STRING_SIZE <= o.size
  }

  function Paddings(o: Offsets): DataType
    requires Laid(o)
  {
    DataType(o.name, o.value - o.name - STRING_SIZE, o.unit - o.value - FLOAT_SIZE, o.sensorType - o.unit - STRING_SIZE, o.size)
  }

  function ReadString(mem: Memory, at: nat): string {
    if at in mem && mem[at].UaString? && mem[at].data.Some? then mem[at].data.value else ""
  }

  function ReadFloat(mem: Memory, at: nat): real {
    if at in mem && mem[at].UaFloat? then mem[at].value else 0.0
  }

  /** A structure lies at base with its members at the compiler's offsets. */
  ghost predicate Holds(mem: Memory, base: nat, o: Offsets, dto: SensorDto) {
    && base + o.name in mem && mem[base + o.name] == UaString(dto.name)
    && base + o.value in mem && mem[base + o.value] == UaFloat(dto.value)
    && base + o.unit in mem && mem[base + o.unit] == UaString(dto.unit)
    && base + o.sensorType in mem && mem[base + o.sensorType] == UaString(dto.sensorType)
  }

  function TextOf(s: Option<string>): string { if s.Some? then s.value else "" }

  function Decoded(dto: SensorDto): DecodedSensor {
    DecodedSensor(TextOf(dto.name), dto.value, TextOf(dto.unit), TextOf(dto.sensorType))
  }

  /** The members found by walking the paddings. */
  function Extract(dt: DataType, mem: Memory, base: nat): DecodedSensor {
    var name := base + dt.p0;
    var value := name + STRING_SIZE + dt.p1;
    var unit := value + FLOAT_SIZE + dt.p2;
    var sensorType := unit + STRING_SIZE + dt.p3;
    DecodedSensor(ReadString(mem, name), ReadFloat(mem, value), ReadString(mem, unit), ReadString(mem, sensorType))
  }

  method ExtractSensor(dt: DataType, mem: Memory, base: nat) returns (sensor: DecodedSensor)
    ensures sensor == Extract(dt, mem, base)
    ensures forall o, dto :: Laid(o) && dt == Paddings(o) && Holds(mem, base, o, dto) ==> sensor == Decoded(dto)
  {
    var off := base + dt.p0;
    var name := ReadString(mem, off);
    off := off + STRING_SIZE + dt.p1;
    var value := ReadFloat(mem, off);
    off := off + FLOAT_SIZE + dt.p2;
    var unit := ReadString(mem, off);
    off := off + STRING_SIZE + dt.p3;
    var sensorType := ReadString(mem, off);
    sensor := DecodedSensor(name, value, unit, sensorType);
  }

  // ------------------------------------------------------------- encoding

  datatype ExtensionObject =
    | DecodedObject(data: Option<Memory>)
    | DecodedNoDelete(data: Option<Memory>)
    | EncodedByteString(body: seq<nat>)
    | OtherEncoding

  datatype Variant =
    | NoData
    | TypedArray(mem: Memory, base: nat, count: nat)
    | ExtensionArray(objects: seq<ExtensionObject>)

  /** UA_copy into fresh memory: the members at the offsets of the type. */
  function Copied(o: Offsets, dto: SensorDto): (mem: Memory)
    requires Laid(o)
    ensures Holds(mem, 0, o, dto)
  {
    map[o.name := UaString(dto.name), o.value := UaFloat(dto.value),
        o.unit := UaString(dto.unit), o.sensorType := UaString(dto.sensorType)]
  }

  /** The sensor type member is left at its default. */
  function DtoOf(s: SensorSnapshot): SensorDto {
    SensorDto(Some(s.name), s.value, Some(s.unit), None)
  }

  method BuildTelemetryStore(sensors: seq<SensorSnapshot>, o: Offsets) returns (store: Variant)
    requires Laid(o)
    ensures store.ExtensionArray? && |store.objects| == |sensors|
    ensures forall i :: 0 <= i < |sensors| ==> store.objects[i] == DecodedObject(Some(Copied(o, DtoOf(sensors[i]))))
  {
    var arr := [];
    for i := 0 to |sensors|
      invariant |arr| == i
      invariant forall k :: 0 <= k < i ==> arr[k] == DecodedObject(Some(Copied(o, DtoOf(sensors[k]))))
    {
      arr := arr + [DecodedObject(Some(Copied(o, DtoOf(sensors[i]))))];
    }
    store := ExtensionArray(arr);
  }

  // ------------------------------------------------------------- decoding

  type BinaryDecoder = seq<nat> -> Option<Memory>

  /** The structure an extension object yields, if it yields one. */
  function Body(e: ExtensionObject, binary: BinaryDecoder): Option<Memory> {
    match e
    case DecodedObject(data) => data
    case DecodedNoDelete(data) => data
    case EncodedByteString(body) => binary(body)
    case OtherEncoding => None
  }

  function DecodeObjects(objects: seq<ExtensionObject>, dt: DataType, binary: BinaryDecoder): seq<DecodedSensor> {
    if objects == [] then []
    else
      var n := |objects| - 1;
      var body := Body(objects[n], binary);
      DecodeObjects(objects[..n], dt, binary) + if body.Some? then [Extract(dt, body.value, 0)] else []
  }

  method DecodeSensorDtos(value: Variant, dt: DataType, binary: BinaryDecoder) returns (result: seq<DecodedSensor>)
    ensures value.NoData? ==> result == []
    ensures value.TypedArray? ==> |result| == value.count
    ensures value.TypedArray? ==>
      forall i :: 0 <= i < value.count ==> result[i] == Extract(dt, value.mem, value.base + i * dt.memSize)
    ensures value.ExtensionArray? ==> result == DecodeObjects(value.objects, dt, binary)
  {
    result := [];
    if value.NoData? { return; }
    if value.TypedArray? {
      for i := 0 to value.count
        invariant |result| == i
        invariant forall k :: 0 <= k < i ==> result[k] == Extract(dt, value.mem, value.base + k * dt.memSize)
      {
        var sensor := ExtractSensor(dt, value.mem, value.base + i * dt.memSize);
        result := result + [sensor];
      }
      return;
    }
    for i := 0 to |value.objects|
      invariant result == DecodeObjects(value.objects[..i], dt, binary)
    {
      var ext := value.objects[i];
      assert value.objects[..i + 1][..i] == value.objects[..i];
      if ext.DecodedObject? || ext.DecodedNoDelete? {
        if ext.data.Some? {
          var sensor := ExtractSensor(dt, ext.data.value, 0);
          result := result + [sensor];
        }
      } else if ext.EncodedByteString? {
        var decoded := binary(ext.body);
        if decoded.Some? {
          var sensor := ExtractSensor(dt, decoded.value, 0);
          result := result + [sensor];
        }
      }
    }
    assert value.objects[..|value.objects|] == value.objects;
  }

  // ------------------------------------------------------------ round trip

  /** The walk over the paddings lands on the compiler's offsets, for every layout. */
  lemma WalkFindsMembers(o: Offsets, mem: Memory, base: nat, dto: SensorDto)
    requires Laid(o) && Holds(mem, base, o, dto)
    ensures Extract(Paddings(o), mem, base) == Decoded(dto)
  {}

  /** Decoding what was built gives names, values and units back in order, for every layout. */
  lemma {:induction false} RoundTrip(objects: seq<ExtensionObject>, sensors: seq<SensorSnapshot>, o: Offsets, binary: BinaryDecoder)
    requires Laid(o) && |objects| == |sensors|
    requires forall i :: 0 <= i < |sensors| ==> objects[i] == DecodedObject(Some(Copied(o, DtoOf(sensors[i]))))
    ensures var result := DecodeObjects(objects, Paddings(o), binary);
            |result| == |sensors|
            && forall i :: 0 <= i < |sensors| ==> result[i] == DecodedSensor(sensors[i].name, sensors[i].value, sensors[i].unit, "")
  {
    if sensors != [] {
      var n := |sensors| - 1;
      RoundTrip(objects[..n], sensors[..n], o, binary);
      WalkFindsMembers(o, Copied(o, DtoOf(sensors[n])), 0, DtoOf(sensors[n]));
    }
  }

  method StoreAndDecode(sensors: seq<SensorSnapshot>, o: Offsets, binary: BinaryDecoder) returns (result: seq<DecodedSensor>)
    requires Laid(o)
    ensures |result| == |sensors|
    ensures forall i :: 0 <= i < |sensors| ==> result[i] == DecodedSensor(sensors[i].name, sensors[i].value, sensors[i].unit, "")
  {
    var store := BuildTelemetryStore(sensors, o);
    RoundTrip(store.objects, sensors, o, binary);
    result := DecodeSensorDtos(store, Paddings(o), binary);
  }

  /** An unwrapped array is read structure by structure at the stride of the type, member by member, null strings as empty. */
  lemma TypedArrayRoundTrip(mem: Memory, base: nat, dtos: seq<SensorDto>, o: Offsets)
    requires Laid(o) && forall i :: 0 <= i < |dtos| ==> Holds(mem, base + i * o.size, o, dtos[i])
    ensures forall i :: 0 <= i < |dtos| ==>
              IsRead(Extract(Paddings(o), mem, base + i * Paddings(o).memSize), dtos[i])
  {
    forall i | 0 <= i < |dtos| ensures IsRead(Extract(Paddings(o), mem, base + i * Paddings(o).memSize), dtos[i]) {
      WalkFindsMembers(o, mem, base + i * o.size, dtos[i]);
    }
  }

  ghost predicate IsRead(d: DecodedSensor, dto: SensorDto) {
    && d.value == dto.value
    && (if dto.name == None then d.name == "" else dto.name == Some(d.name))
    && (if dto.unit == None then d.unit == "" else dto.unit == Some(d.unit))
    && (if dto.sensorType == None then d.sensorType == "" else dto.sensorType == Some(d.sensorType))
  }

  /** Structures reach the reader as decoded objects, with or without ownership, or as bytes the decoder understands. */
  ghost predicate Carries(e: ExtensionObject, mem: Memory, binary: BinaryDecoder) {
    e == DecodedObject(Some(mem)) || e == DecodedNoDelete(Some(mem)) || (e.EncodedByteString? && binary(e.body) == Some(mem))
  }

  /** Nothing to read: no data, bytes that do not decode, or another encoding. */
  ghost predicate CarriesNothing(e: ExtensionObject, binary: BinaryDecoder) {
    e == DecodedObject(None) || e == DecodedNoDelete(None) || e == OtherEncoding || (e.EncodedByteString? && binary(e.body) == None)
  }

  /** An object with its sensor, or without one. */
  ghost predicate IsSent(e: ExtensionObject, dto: Option<SensorDto>, o: Offsets, binary: BinaryDecoder) {
    match dto
    case None => CarriesNothing(e, binary)
    case Some(d) => exists mem :: Carries(e, mem, binary) && Holds(mem, 0, o, d)
  }

  /** The sensors among them, in order. */
  function Sent(dtos: seq<Option<SensorDto>>): seq<SensorDto> {
    if dtos == [] then []
    else Sent(dtos[..|dtos| - 1]) + if dtos[|dtos| - 1].Some? then [dtos[|dtos| - 1].value] else []
  }

  /** However the sensors were encoded, decoding gives back all that carry a structure, member by member and in order, and no others. */
  lemma {:induction false} MixedRoundTrip(objects: seq<ExtensionObject>, dtos: seq<Option<SensorDto>>, o: Offsets, binary: BinaryDecoder)
    requires Laid(o) && |objects| == |dtos|
    requires forall i :: 0 <= i < |objects| ==> IsSent(objects[i], dtos[i], o, binary)
    ensures var result, sent := DecodeObjects(objects, Paddings(o), binary), Sent(dtos);
            |result| == |sent| && forall i :: 0 <= i < |sent| ==> IsRead(result[i], sent[i])
  {
    if objects != [] {
      var n := |objects| - 1;
      MixedRoundTrip(objects[..n], dtos[..n], o, binary);
      assert IsSent(objects[n], dtos[n], o, binary);
      if dtos[n].Some? {
        var mem :| Carries(objects[n], mem, binary) && Holds(mem, 0, o, dtos[n].value);
        WalkFindsMembers(o, mem, 0, dtos[n].value);
      }
    }
  }

  /** The positions of the decodable entries, increasing and complete. */
  ghost predicate Decodable(objects: seq<ExtensionObject>, binary: BinaryDecoder, at: seq<nat>) {
    && (forall j :: 0 <= j < |at| ==> at[j] < |objects| && Body(objects[at[j]], binary).Some?)
    && (forall j, k :: 0 <= j < k < |at| ==> at[j] < at[k])
    && (forall i :: 0 <= i < |objects| && Body(objects[i], binary).Some? ==> i in at)
  }

  lemma DecodableStep(objects: seq<ExtensionObject>, binary: BinaryDecoder, before: seq<nat>, at: seq<nat>)
    requires objects != [] && Decodable(objects[..|objects| - 1], binary, before)
    requires at == before + if Body(objects[|objects| - 1], binary).Some? then [|objects| - 1] else []
    ensures Decodable(objects, binary, at)
  {
    var n := |objects| - 1;
    assert forall i :: 0 <= i < n ==> objects[..n][i] == objects[i];
    forall i | 0 <= i < |objects| && Body(objects[i], binary).Some? ensures i in at {
      if i < n { assert i in before; } else { assert at[|before|] == n; }
    }
  }

  /**
    On mixed encodings the result is the order-preserving subsequence of the
    decodable entries.
   */
  lemma {:induction false} DecodableSubsequence(objects: seq<ExtensionObject>, dt: DataType, binary: BinaryDecoder) returns (at: seq<nat>)
    ensures Decodable(objects, binary, at) && |at| == |DecodeObjects(objects, dt, binary)|
    ensures forall j :: 0 <= j < |at| ==>
      DecodeObjects(objects, dt, binary)[j] == Extract(dt, Body(objects[at[j]], binary).value, 0)
  {
    at := [];
    if objects != [] {
      var n := |objects| - 1;
      var before := DecodableSubsequence(objects[..n], dt, binary);
      at := before + if Body(objects[n], binary).Some? then [n] else [];
      DecodableStep(objects, binary, before, at);
    }
  }
}
