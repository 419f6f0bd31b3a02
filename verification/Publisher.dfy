/**
  The publishing client over the server's address space: browse-or-create for
  the client folder and one subtree per device key, a cache of the node ids
  found, and the writing of drained snapshots. An empty Option stands for the
  exception a refused service call raises.
 */
module Publisher {
  import opened Words
  import opened OpcUaLayout

  datatype SensorSnapshot = SensorSnapshot(name: string, value: real, unit: string)

  datatype Snapshot = Snapshot(name: string, vendor: string, hardwareType: string, sensors: seq<SensorSnapshot>)

  datatype Value = Empty | Text(text: string) | Sensors(sensors: seq<SensorSnapshot>)

  datatype Node = Node(parent: NodeId, name: string, value: Value)

  type Nodes = map<NodeId, Node>

  datatype Field = NameField | VendorField | TypeField | SensorsField

  function FieldName(f: Field): (s: string)
    ensures IsField(s) && '.' !in s
  {
    match f
    case NameField => "name"
    case VendorField => "vendor"
    case TypeField => "hardware_type"
    case SensorsField => "sensors"
  }

  function FolderId(device: string): NodeId { Str(NS, ClientFolderId(device)) }

  function ObjectId(device: string, key: string): NodeId { Str(NS, SnapshotObjectId(device, key)) }

  function FieldId(device: string, key: string, f: Field): NodeId { Str(NS, SnapshotFieldId(device, key, FieldName(f))) }

  /** The ids one device publishes under. */
  datatype SnapshotNodeIds = SnapshotNodeIds(object_: NodeId, name: NodeId, vendor: NodeId, hardwareType: NodeId, sensors: NodeId)

  function IdsOf(device: string, key: string): SnapshotNodeIds {
    SnapshotNodeIds(ObjectId(device, key), FieldId(device, key, NameField), FieldId(device, key, VendorField),
                    FieldId(device, key, TypeField), FieldId(device, key, SensorsField))
  }

  const CLIENTS := Str(NS, CLIENTS_FOLDER_NAME)

  /** A place in the device's subtree: the client folder, a snapshot object, a field of one. */
  datatype Place = FolderPlace | ObjectPlace(key: string) | FieldPlace(key: string, f: Field)

  function IdAt(device: string, p: Place): NodeId {
    match p
    case FolderPlace => FolderId(device)
    case ObjectPlace(key) => ObjectId(device, key)
    case FieldPlace(key, f) => FieldId(device, key, f)
  }

  function ParentAt(device: string, p: Place): NodeId {
    match p
    case FolderPlace => CLIENTS
    case ObjectPlace(_) => FolderId(device)
    case FieldPlace(key, _) => ObjectId(device, key)
  }

  function NameAt(device: string, p: Place): string {
    match p
    case FolderPlace => device
    case ObjectPlace(key) => key
    case FieldPlace(_, f) => FieldName(f)
  }

  predicate InScheme(p: Place, keys: iset<string>) {
    p.FolderPlace? || p.key in keys
  }

  /** Different places have different ids and different browse paths. */
  lemma PlacesDistinct(device: string, keys: iset<string>, p: Place, q: Place)
    requires ClashFree(keys) && device != CLIENTS_FOLDER_NAME && InScheme(p, keys) && InScheme(q, keys) && p != q
    ensures IdAt(device, p) != IdAt(device, q)
    ensures ParentAt(device, p) != ParentAt(device, q) || NameAt(device, p) != NameAt(device, q)
  {
    var k1, f1 := if p.FolderPlace? then "" else p.key, if p.FieldPlace? then p.f else NameField;
    var k2, f2 := if q.FolderPlace? then "" else q.key, if q.FieldPlace? then q.f else NameField;
    IdsDistinct(device, k1, FieldName(f1), k2, FieldName(f2));
    IdsDistinct(device, k2, FieldName(f2), k1, FieldName(f1));
    ObjectsAreNotClients(device, k1);
    ObjectsAreNotClients(device, k2);
  }

  lemma ObjectsAreNotClients(device: string, key: string)
    ensures ObjectId(device, key) != CLIENTS
  {
    assert SnapshotObjectId(device, key)[|device|] == '.';
    assert '.' in SnapshotObjectId(device, key) && '.' !in CLIENTS_FOLDER_NAME;
  }

  // ------------------------------------------------------- the tree, as data

  predicate IsChild(nodes: Nodes, c: NodeId, parent: NodeId, name: string) {
    c in nodes && nodes[c].parent == parent && nodes[c].name == name
  }

  /** The layout's id and the browse path agree: both name the same node, or neither names any. */
  ghost predicate Placed(nodes: Nodes, id: NodeId, parent: NodeId, name: string) {
    && (id in nodes ==> IsChild(nodes, id, parent, name))
    && (forall c :: IsChild(nodes, c, parent, name) ==> c == id)
  }

  ghost predicate PlacedAt(nodes: Nodes, device: string, p: Place) {
    Placed(nodes, IdAt(device, p), ParentAt(device, p), NameAt(device, p))
  }

  /** A tree on which the device may publish keys: fresh, or left by an earlier run; other devices' nodes are arbitrary. */
  ghost predicate TreeOk(nodes: Nodes, device: string, keys: iset<string>) {
    && CLIENTS in nodes && device != CLIENTS_FOLDER_NAME && ClashFree(keys)
    && forall p {:trigger PlacedAt(nodes, device, p)} :: InScheme(p, keys) ==> PlacedAt(nodes, device, p)
  }

  function Grown(nodes: Nodes, id: NodeId, parent: NodeId, name: string): Nodes {
    if id in nodes then nodes else nodes[id := Node(parent, name, Empty)]
  }

  function GrownAt(nodes: Nodes, device: string, p: Place): Nodes {
    Grown(nodes, IdAt(device, p), ParentAt(device, p), NameAt(device, p))
  }

  const FIELDS: seq<Field> := [NameField, VendorField, TypeField, SensorsField]

  /** The given fields of a key, found or created in order. */
  function GrowFields(nodes: Nodes, device: string, key: string, fields: seq<Field>): Nodes {
    if fields == [] then nodes
    else GrownAt(GrowFields(nodes, device, key, fields[..|fields| - 1]), device, FieldPlace(key, fields[|fields| - 1]))
  }

  function WithSubtree(nodes: Nodes, device: string, key: string): Nodes {
    GrowFields(GrownAt(nodes, device, ObjectPlace(key)), device, key, FIELDS)
  }

  function SetValue(nodes: Nodes, id: NodeId, v: Value): Nodes {
    if id in nodes then nodes[id := nodes[id].(value := v)] else nodes
  }

  function ValueFor(snapshot: Snapshot, f: Field): Value {
    match f
    case NameField => Text(snapshot.name)
    case VendorField => Text(snapshot.vendor)
    case TypeField => Text(snapshot.hardwareType)
    case SensorsField => Sensors(snapshot.sensors)
  }

  function SetField(nodes: Nodes, device: string, s: Snapshot, f: Field): Nodes {
    SetValue(nodes, FieldId(device, s.name, f), ValueFor(s, f))
  }

  function WriteFields(nodes: Nodes, device: string, s: Snapshot, fields: seq<Field>): Nodes {
    if fields == [] then nodes
    else SetField(WriteFields(nodes, device, s, fields[..|fields| - 1]), device, s, fields[|fields| - 1])
  }

  function Written(nodes: Nodes, device: string, s: Snapshot): Nodes {
    WriteFields(nodes, device, s, FIELDS)
  }

  function Publish(nodes: Nodes, device: string, s: Snapshot): Nodes {
    Written(WithSubtree(nodes, device, s.name), device, s)
  }

  function PublishAll(nodes: Nodes, device: string, drained: seq<Snapshot>): Nodes {
    if drained == [] then nodes
    else Publish(PublishAll(nodes, device, drained[..|drained| - 1]), device, drained[|drained| - 1])
  }

  /** The last snapshot with a key in everything drained so far. */
  function LastSnapshot(drained: seq<Snapshot>, key: string): Option<Snapshot> {
    if drained == [] then None
    else if drained[|drained| - 1].name == key then Some(drained[|drained| - 1])
    else LastSnapshot(drained[..|drained| - 1], key)
  }

  ghost predicate SubtreeExists(nodes: Nodes, device: string, key: string) {
    ObjectId(device, key) in nodes && forall f :: FieldId(device, key, f) in nodes
  }

  ghost predicate Shows(nodes: Nodes, device: string, key: string, s: Snapshot) {
    SubtreeExists(nodes, device, key) && forall f :: nodes[FieldId(device, key, f)].value == ValueFor(s, f)
  }

  // --------------------------------------------------- one place at a time

  /** Only the subtree of the key may differ, and only by additions and field values. */
  ghost predicate OnlyKey(before: Nodes, after: Nodes, device: string, key: string) {
    && (forall id :: id in before ==> id in after && after[id].parent == before[id].parent && after[id].name == before[id].name)
    && (forall id :: id in before && (forall f :: id != FieldId(device, key, f)) ==> after[id] == before[id])
    && (forall id :: id in after && id !in before ==> id == ObjectId(device, key) || exists f :: id == FieldId(device, key, f))
  }

  lemma GrowOk(nodes: Nodes, device: string, keys: iset<string>, p: Place)
    requires TreeOk(nodes, device, keys) && InScheme(p, keys)
    ensures TreeOk(GrownAt(nodes, device, p), device, keys)
    ensures !p.FolderPlace? ==> OnlyKey(nodes, GrownAt(nodes, device, p), device, p.key)
  {
    assert PlacedAt(nodes, device, p);
    var after, id := GrownAt(nodes, device, p), IdAt(device, p);
    forall q | InScheme(q, keys) ensures PlacedAt(after, device, q) {
      assert PlacedAt(nodes, device, q);
      if q != p {
        PlacesDistinct(device, keys, p, q);
        assert forall c :: IsChild(after, c, ParentAt(device, q), NameAt(device, q)) ==>
          IsChild(nodes, c, ParentAt(device, q), NameAt(device, q));
      } else {
        assert forall c :: IsChild(after, c, ParentAt(device, q), NameAt(device, q)) ==>
          c == id || IsChild(nodes, c, ParentAt(device, q), NameAt(device, q));
      }
    }
  }

  lemma OnlyKeyTrans(a: Nodes, b: Nodes, c: Nodes, device: string, key: string)
    requires OnlyKey(a, b, device, key) && OnlyKey(b, c, device, key)
    ensures OnlyKey(a, c, device, key)
  {}

  ghost predicate HasFields(nodes: Nodes, device: string, key: string, fields: seq<Field>) {
    forall k :: 0 <= k < |fields| ==> FieldId(device, key, fields[k]) in nodes
  }

  lemma HasFieldsStep(before: Nodes, after: Nodes, device: string, key: string, fields: seq<Field>)
    requires fields != [] && HasFields(before, device, key, fields[..|fields| - 1])
    requires before.Keys <= after.Keys && FieldId(device, key, fields[|fields| - 1]) in after
    ensures HasFields(after, device, key, fields)
  {
    var n := |fields| - 1;
    forall k | 0 <= k < |fields| ensures FieldId(device, key, fields[k]) in after {
      if k < n { assert fields[..n][k] == fields[k]; }
    }
  }

  lemma {:induction false} GrowFieldsOk(nodes: Nodes, device: string, keys: iset<string>, key: string, fields: seq<Field>)
    requires TreeOk(nodes, device, keys) && key in keys
    ensures var after := GrowFields(nodes, device, key, fields);
            && TreeOk(after, device, keys) && OnlyKey(nodes, after, device, key) && HasFields(after, device, key, fields)
            && ((forall f :: FieldId(device, key, f) in nodes) ==> after == nodes)
  {
    if fields != [] {
      var n := |fields| - 1;
      GrowFieldsOk(nodes, device, keys, key, fields[..n]);
      var before := GrowFields(nodes, device, key, fields[..n]);
      GrowOk(before, device, keys, FieldPlace(key, fields[n]));
      OnlyKeyTrans(nodes, before, GrowFields(nodes, device, key, fields), device, key);
      HasFieldsStep(before, GrowFields(nodes, device, key, fields), device, key, fields);
    }
  }

  lemma AllFields(f: Field)
    ensures exists k :: 0 <= k < |FIELDS| && FIELDS[k] == f
  {
    var k := match f case NameField => 0 case VendorField => 1 case TypeField => 2 case SensorsField => 3;
    assert FIELDS[k] == f;
  }

  lemma SubtreeGrowOk(nodes: Nodes, device: string, keys: iset<string>, key: string)
    requires TreeOk(nodes, device, keys) && key in keys
    ensures var after := WithSubtree(nodes, device, key);
            && TreeOk(after, device, keys) && OnlyKey(nodes, after, device, key) && SubtreeExists(after, device, key)
            && (SubtreeExists(nodes, device, key) ==> after == nodes)
  {
    var n0 := GrownAt(nodes, device, ObjectPlace(key));
    GrowOk(nodes, device, keys, ObjectPlace(key));
    GrowFieldsOk(n0, device, keys, key, FIELDS);
    OnlyKeyTrans(nodes, n0, WithSubtree(nodes, device, key), device, key);
    forall f ensures FieldId(device, key, f) in WithSubtree(nodes, device, key) {
      AllFields(f);
    }
  }

  /** Writing values moves no node. */
  lemma SetOk(nodes: Nodes, device: string, keys: iset<string>, s: Snapshot, f: Field)
    requires TreeOk(nodes, device, keys)
    ensures TreeOk(SetField(nodes, device, s, f), device, keys)
    ensures OnlyKey(nodes, SetField(nodes, device, s, f), device, s.name)
  {
    var after := SetField(nodes, device, s, f);
    forall q | InScheme(q, keys) ensures PlacedAt(after, device, q) {
      assert PlacedAt(nodes, device, q);
      assert forall c :: IsChild(after, c, ParentAt(device, q), NameAt(device, q)) <==>
        IsChild(nodes, c, ParentAt(device, q), NameAt(device, q));
    }
  }

  ghost predicate ShowsFields(nodes: Nodes, device: string, s: Snapshot, fields: seq<Field>) {
    SubtreeExists(nodes, device, s.name)
    && forall k :: 0 <= k < |fields| ==> nodes[FieldId(device, s.name, fields[k])].value == ValueFor(s, fields[k])
  }

  lemma ShowsFieldsStep(before: Nodes, device: string, s: Snapshot, fields: seq<Field>)
    requires fields != [] && ShowsFields(before, device, s, fields[..|fields| - 1])
    ensures ShowsFields(SetField(before, device, s, fields[|fields| - 1]), device, s, fields)
  {
    var n, after := |fields| - 1, SetField(before, device, s, fields[|fields| - 1]);
    FieldsDistinct(device, s.name);
    forall k | 0 <= k < |fields| ensures after[FieldId(device, s.name, fields[k])].value == ValueFor(s, fields[k]) {
      if k < n { assert fields[..n][k] == fields[k]; }
    }
  }

  lemma {:induction false} WriteFieldsOk(nodes: Nodes, device: string, keys: iset<string>, s: Snapshot, fields: seq<Field>)
    requires TreeOk(nodes, device, keys) && SubtreeExists(nodes, device, s.name)
    ensures var after := WriteFields(nodes, device, s, fields);
            TreeOk(after, device, keys) && OnlyKey(nodes, after, device, s.name) && ShowsFields(after, device, s, fields)
  {
    if fields != [] {
      var n := |fields| - 1;
      WriteFieldsOk(nodes, device, keys, s, fields[..n]);
      var before := WriteFields(nodes, device, s, fields[..n]);
      SetOk(before, device, keys, s, fields[n]);
      OnlyKeyTrans(nodes, before, WriteFields(nodes, device, s, fields), device, s.name);
      ShowsFieldsStep(before, device, s, fields);
    }
  }

  lemma WriteOk(nodes: Nodes, device: string, keys: iset<string>, s: Snapshot)
    requires TreeOk(nodes, device, keys) && SubtreeExists(nodes, device, s.name)
    ensures var after := Written(nodes, device, s);
            TreeOk(after, device, keys) && OnlyKey(nodes, after, device, s.name) && Shows(after, device, s.name, s)
  {
    WriteFieldsOk(nodes, device, keys, s, FIELDS);
    forall f ensures Written(nodes, device, s)[FieldId(device, s.name, f)].value == ValueFor(s, f) {
      AllFields(f);
    }
  }

  lemma FieldsDistinct(device: string, key: string)
    ensures forall f, g :: FieldId(device, key, f) == FieldId(device, key, g) ==> f == g
    ensures forall f :: FieldId(device, key, f) != ObjectId(device, key)
  {
    forall f, g ensures FieldId(device, key, f) == FieldId(device, key, g) ==> f == g {
      IdsDistinct(device, key, FieldName(f), key, FieldName(g));
    }
    forall f ensures FieldId(device, key, f) != ObjectId(device, key) {
      IdsDistinct(device, key, FieldName(f), key, FieldName(f));
      assert |key| < |key + "." + FieldName(f)|;
    }
  }

  lemma PublishOk(nodes: Nodes, device: string, keys: iset<string>, s: Snapshot)
    requires TreeOk(nodes, device, keys) && s.name in keys
    ensures TreeOk(Publish(nodes, device, s), device, keys)
    ensures OnlyKey(nodes, Publish(nodes, device, s), device, s.name)
    ensures Shows(Publish(nodes, device, s), device, s.name, s)
  {
    SubtreeGrowOk(nodes, device, keys, s.name);
    WriteOk(WithSubtree(nodes, device, s.name), device, keys, s);
    OnlyKeyTrans(nodes, WithSubtree(nodes, device, s.name), Publish(nodes, device, s), device, s.name);
  }

  /** Publishing one key leaves what another key shows. */
  lemma OtherKeysKept(before: Nodes, after: Nodes, device: string, keys: iset<string>, key: string, other: string, s: Snapshot)
    requires ClashFree(keys) && device != CLIENTS_FOLDER_NAME && key in keys && other in keys && key != other
    requires OnlyKey(before, after, device, key) && Shows(before, device, other, s)
    ensures Shows(after, device, other, s)
  {
    forall f ensures FieldId(device, other, f) in after && after[FieldId(device, other, f)].value == ValueFor(s, f) {
      forall g ensures FieldId(device, other, f) != FieldId(device, key, g) {
        PlacesDistinct(device, keys, FieldPlace(other, f), FieldPlace(key, g));
      }
    }
  }

  lemma GrowFieldsUnfold(nodes: Nodes, device: string, key: string)
    ensures var n1 := GrownAt(nodes, device, FieldPlace(key, NameField));
            var n2 := GrownAt(n1, device, FieldPlace(key, VendorField));
            var n3 := GrownAt(n2, device, FieldPlace(key, TypeField));
            GrowFields(nodes, device, key, FIELDS) == GrownAt(n3, device, FieldPlace(key, SensorsField))
  {
    assert FIELDS[..3][..2] == FIELDS[..2] && FIELDS[..2][..1] == FIELDS[..1] && FIELDS[..1][..0] == [];
    assert GrowFields(nodes, device, key, FIELDS[..1]) == GrownAt(nodes, device, FieldPlace(key, NameField));
    assert GrowFields(nodes, device, key, FIELDS[..2]) ==
      GrownAt(GrowFields(nodes, device, key, FIELDS[..1]), device, FieldPlace(key, VendorField));
    assert GrowFields(nodes, device, key, FIELDS[..3]) ==
      GrownAt(GrowFields(nodes, device, key, FIELDS[..2]), device, FieldPlace(key, TypeField));
  }

  lemma WriteFieldsUnfold(nodes: Nodes, device: string, s: Snapshot)
    ensures var n1 := SetField(nodes, device, s, NameField);
            var n2 := SetField(n1, device, s, VendorField);
            var n3 := SetField(n2, device, s, TypeField);
            Written(nodes, device, s) == SetField(n3, device, s, SensorsField)
  {
    assert FIELDS[..3][..2] == FIELDS[..2] && FIELDS[..2][..1] == FIELDS[..1] && FIELDS[..1][..0] == [];
    assert WriteFields(nodes, device, s, FIELDS[..1]) == SetField(nodes, device, s, NameField);
    assert WriteFields(nodes, device, s, FIELDS[..2]) == SetField(WriteFields(nodes, device, s, FIELDS[..1]), device, s, VendorField);
    assert WriteFields(nodes, device, s, FIELDS[..3]) == SetField(WriteFields(nodes, device, s, FIELDS[..2]), device, s, TypeField);
  }

  // ---------------------------------------------------------- whole runs

  ghost predicate KeysIn(drained: seq<Snapshot>, keys: iset<string>) {
    forall k :: 0 <= k < |drained| ==> drained[k].name in keys
  }

  /**
    After any sequence of drained snapshots, on a fresh or an existing tree,
    every key shows its last snapshot and every subtree node stands where the
    layout puts it.
   */
  lemma {:induction false} EveryKeyShowsItsLast(nodes: Nodes, device: string, keys: iset<string>, drained: seq<Snapshot>)
    requires TreeOk(nodes, device, keys) && KeysIn(drained, keys)
    ensures TreeOk(PublishAll(nodes, device, drained), device, keys)
    ensures forall key :: key in keys && LastSnapshot(drained, key).Some? ==>
              Shows(PublishAll(nodes, device, drained), device, key, LastSnapshot(drained, key).value)
  {
    if drained != [] {
      var init, s := drained[..|drained| - 1], drained[|drained| - 1];
      EveryKeyShowsItsLast(nodes, device, keys, init);
      var before := PublishAll(nodes, device, init);
      PublishOk(before, device, keys, s);
      forall key | key in keys && LastSnapshot(drained, key).Some?
        ensures Shows(PublishAll(nodes, device, drained), device, key, LastSnapshot(drained, key).value)
      {
        if key != s.name {
          OtherKeysKept(before, Publish(before, device, s), device, keys, s.name, key, LastSnapshot(init, key).value);
        }
      }
    }
  }

  /** Nodes outside the device's ownership are never touched, and no node is lost. */
  lemma {:induction false} OthersUntouched(nodes: Nodes, device: string, keys: iset<string>, drained: seq<Snapshot>, id: NodeId)
    requires TreeOk(nodes, device, keys) && forall k :: 0 <= k < |drained| ==> drained[k].name in keys && drained[k].name != ""
    ensures id in nodes ==> id in PublishAll(nodes, device, drained)
    ensures !BelongsTo(id, device) ==>
              (id in PublishAll(nodes, device, drained) <==> id in nodes)
              && (id in nodes ==> PublishAll(nodes, device, drained)[id] == nodes[id])
  {
    if drained != [] {
      var init, s := drained[..|drained| - 1], drained[|drained| - 1];
      OthersUntouched(nodes, device, keys, init, id);
      EveryKeyShowsItsLast(nodes, device, keys, init);
      PublishOk(PublishAll(nodes, device, init), device, keys, s);
      ForeignUntouched(PublishAll(nodes, device, init), PublishAll(nodes, device, drained), device, s.name, id);
    }
  }

  lemma ForeignUntouched(before: Nodes, after: Nodes, device: string, key: string, id: NodeId)
    requires OnlyKey(before, after, device, key) && key != ""
    ensures id in before ==> id in after
    ensures !BelongsTo(id, device) ==> (id in after <==> id in before) && (id in before ==> after[id] == before[id])
  {
    LayoutBelongs(device, key, "");
    forall f ensures BelongsTo(FieldId(device, key, f), device) { LayoutBelongs(device, key, FieldName(f)); }
  }

  // -------------------------------------------- the tree as others read it

  ghost predicate NodeIs(nodes: Nodes, id: string, parent: string, name: string, v: Value) {
    Str(1, id) in nodes && nodes[Str(1, id)] == Node(Str(1, parent), name, v)
  }

  /** What a reader finds for a snapshot, id by id and browse name by browse name. */
  ghost predicate ReadsBack(nodes: Nodes, device: string, key: string, s: Snapshot) {
    var obj := device + "." + key;
    && Str(1, obj) in nodes && nodes[Str(1, obj)].parent == Str(1, device) && nodes[Str(1, obj)].name == key
    && NodeIs(nodes, obj + ".name", obj, "name", Text(s.name))
    && NodeIs(nodes, obj + ".vendor", obj, "vendor", Text(s.vendor))
    && NodeIs(nodes, obj + ".hardware_type", obj, "hardware_type", Text(s.hardwareType))
    && NodeIs(nodes, obj + ".sensors", obj, "sensors", Sensors(s.sensors))
  }

  /** And no other child of the object goes by these names. */
  ghost predicate NamesUnique(nodes: Nodes, obj: string) {
    forall c, name :: IsChild(nodes, c, Str(1, obj), name)
      && (name == "name" || name == "vendor" || name == "hardware_type" || name == "sensors")
      ==> c == Str(1, obj + "." + name)
  }

  /** The device's own folder, the only one of its name among the clients'. */
  ghost predicate FolderReads(nodes: Nodes, device: string) {
    && Str(1, device) in nodes && nodes[Str(1, device)].parent == Str(1, "TelemetryClients") && nodes[Str(1, device)].name == device
    && forall c :: IsChild(nodes, c, Str(1, "TelemetryClients"), device) ==> c == Str(1, device)
  }

  lemma FolderReadsBack(nodes: Nodes, device: string, keys: iset<string>)
    requires TreeOk(nodes, device, keys) && FolderId(device) in nodes
    ensures FolderReads(nodes, device)
  {
    assert PlacedAt(nodes, device, FolderPlace);
  }

  lemma FieldReadsBack(nodes: Nodes, device: string, keys: iset<string>, key: string, s: Snapshot, f: Field, name: string, v: Value)
    requires TreeOk(nodes, device, keys) && key in keys && Shows(nodes, device, key, s)
    requires FieldName(f) == name && ValueFor(s, f) == v
    ensures var obj := device + "." + key;
            && NodeIs(nodes, obj + "." + name, obj, name, v)
            && forall c :: IsChild(nodes, c, Str(1, obj), name) ==> c == Str(1, obj + "." + name)
  {
    assert PlacedAt(nodes, device, FieldPlace(key, f));
    assert FieldId(device, key, f) in nodes;
    assert FieldId(device, key, f) == Str(1, device + "." + key + "." + name);
  }

  lemma ShownReadsBack(nodes: Nodes, device: string, keys: iset<string>, key: string, s: Snapshot)
    requires TreeOk(nodes, device, keys) && key in keys && Shows(nodes, device, key, s)
    ensures ReadsBack(nodes, device, key, s) && NamesUnique(nodes, device + "." + key)
  {
    assert PlacedAt(nodes, device, ObjectPlace(key));
    FieldReadsBack(nodes, device, keys, key, s, NameField, "name", Text(s.name));
    FieldReadsBack(nodes, device, keys, key, s, VendorField, "vendor", Text(s.vendor));
    FieldReadsBack(nodes, device, keys, key, s, TypeField, "hardware_type", Text(s.hardwareType));
    FieldReadsBack(nodes, device, keys, key, s, SensorsField, "sensors", Sensors(s.sensors));
    var obj := device + "." + key;
    SuffixDot(obj);
  }

  lemma SuffixDot(obj: string)
    ensures obj + "." + "name" == obj + ".name" && obj + "." + "vendor" == obj + ".vendor"
    ensures obj + "." + "hardware_type" == obj + ".hardware_type" && obj + "." + "sensors" == obj + ".sensors"
  {
    assert "." + "name" == ".name" && "." + "vendor" == ".vendor";
    assert "." + "hardware_type" == ".hardware_type" && "." + "sensors" == ".sensors";
    assert obj + "." + "name" == obj + ("." + "name") && obj + "." + "vendor" == obj + ("." + "vendor");
    assert obj + "." + "hardware_type" == obj + ("." + "hardware_type") && obj + "." + "sensors" == obj + ("." + "sensors");
  }

  /**
    After any drained sequence a reader finds, for every key, its last
    snapshot: name, vendor, hardware type and sensors, each under its own id
    and browse name, and under no other.
   */
  lemma EveryKeyReadsBack(nodes: Nodes, device: string, keys: iset<string>, drained: seq<Snapshot>)
    requires TreeOk(nodes, device, keys) && KeysIn(drained, keys)
    ensures forall key :: key in keys && LastSnapshot(drained, key).Some? ==>
              && ReadsBack(PublishAll(nodes, device, drained), device, key, LastSnapshot(drained, key).value)
              && NamesUnique(PublishAll(nodes, device, drained), device + "." + key)
  {
    EveryKeyShowsItsLast(nodes, device, keys, drained);
    forall key | key in keys && LastSnapshot(drained, key).Some?
      ensures ReadsBack(PublishAll(nodes, device, drained), device, key, LastSnapshot(drained, key).value)
              && NamesUnique(PublishAll(nodes, device, drained), device + "." + key)
    {
      ShownReadsBack(PublishAll(nodes, device, drained), device, keys, key, LastSnapshot(drained, key).value);
    }
  }
}
