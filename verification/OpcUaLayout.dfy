/**
  Node identifiers of the telemetry address space: string ids built by
  concatenation, and the ownership test the server applies to them.
 */
module OpcUaLayout {

  datatype NodeId = Numeric(ns: nat, id: nat) | Str(ns: nat, s: string) | Opaque(ns: nat, tag: nat)

  const NULL_ID := Numeric(0, 0)
  const NS: nat := 1
  const CLIENTS_FOLDER_NAME: string := "TelemetryClients"

  function ClientFolderId(device: string): string { device }

  function SnapshotObjectId(device: string, key: string): string { device + "." + key }

  function SnapshotFieldId(device: string, key: string, field: string): string { device + "." + key + "." + field }

  predicate IsField(f: string) {
    f == "name" || f == "vendor" || f == "hardware_type" || f == "sensors"
  }

  /** The ownership test: a string id equal to the device name or below it by a dot; the namespace is not looked at. */
  predicate BelongsTo(id: NodeId, device: string) {
    id.Str? && (id.s == device || (|id.s| > |device| + 1 && device + "." <= id.s))
  }

  /** Ownership written out: the device's own name, or a dot and something more after it, in whatever namespace. */
  lemma OwnsExactly(id: NodeId, device: string)
    ensures BelongsTo(id, device) <==> id.Str? && (id.s == device || exists rest :: rest != "" && id.s == device + "." + rest)
  {
    if BelongsTo(id, device) && id.s != device {
      assert id.s == device + "." + id.s[|device| + 1..];
    }
    if id.Str? && exists rest :: rest != "" && id.s == device + "." + rest {
      var rest :| rest != "" && id.s == device + "." + rest;
      assert |id.s| == |device| + 1 + |rest|;
    }
  }

  /** At or below a device's name, dots separating; the id of an object of the empty key included. */
  predicate Under(id: NodeId, device: string) {
    id.Str? && (id.s == device || device + "." <= id.s)
  }

  predicate Related(d1: string, d2: string) {
    d1 == d2 || d1 + "." <= d2 || d2 + "." <= d1
  }

  /** Two devices can own a common id exactly when one name is the other or a dotted prefix of it. */
  lemma SharedIds(d1: string, d2: string)
    ensures (exists id :: BelongsTo(id, d1) && BelongsTo(id, d2)) <==> Related(d1, d2)
  {
    if id :| BelongsTo(id, d1) && BelongsTo(id, d2) {
      CommonOwner(id, d1, d2);
    }
    if Related(d1, d2) {
      var longer := if |d1| <= |d2| then d2 else d1;
      var id := Str(NS, longer + ".x");
      assert longer + "." <= id.s;
      assert BelongsTo(id, d1) && BelongsTo(id, d2) by {
        if d1 + "." <= d2 { assert d1 + "." <= id.s; }
        if d2 + "." <= d1 { assert d2 + "." <= id.s; }
      }
    }
  }

  lemma CommonOwner(id: NodeId, d1: string, d2: string)
    requires Under(id, d1) && Under(id, d2)
    ensures Related(d1, d2)
  {
    var shorter, longer := if |d1| <= |d2| then d1 else d2, if |d1| <= |d2| then d2 else d1;
    assert shorter == id.s[..|shorter|] && longer == id.s[..|longer|];
    if |shorter| < |longer| {
      assert (shorter + ".")[|shorter|] == '.' && id.s[..|shorter| + 1] == shorter + ".";
      assert longer[..|shorter| + 1] == id.s[..|shorter| + 1];
    }
  }

  /** What the layout builds for a device belongs to it, object ids exactly when the key is not empty. */
  lemma LayoutBelongs(device: string, key: string, field: string)
    ensures BelongsTo(Str(NS, ClientFolderId(device)), device)
    ensures BelongsTo(Str(NS, SnapshotObjectId(device, key)), device) <==> key != ""
    ensures BelongsTo(Str(NS, SnapshotFieldId(device, key, field)), device)
  {
    assert device + "." <= SnapshotObjectId(device, key);
    assert SnapshotFieldId(device, key, field) == device + "." + (key + "." + field);
    assert |SnapshotObjectId(device, key)| == |device| + 1 + |key|;
  }

  lemma LaterDot(k1: string, f1: string, k2: string, f2: string)
    requires k1 + "." + f1 == k2 + "." + f2
    ensures |k1| < |k2| ==> '.' in f1
  {
    if |k1| < |k2| {
      assert (k2 + "." + f2)[|k2|] == '.';
      assert f1[|k2| - |k1| - 1] == (k1 + "." + f1)[|k2|];
    }
  }

  /** The key-and-field part of an id splits at its last dot. */
  lemma SplitAtLastDot(k1: string, f1: string, k2: string, f2: string)
    requires '.' !in f1 && '.' !in f2
    requires k1 + "." + f1 == k2 + "." + f2
    ensures k1 == k2 && f1 == f2
  {
    var a, b := k1 + "." + f1, k2 + "." + f2;
    assert a[|k1|] == '.' && b[|k2|] == '.';
    LaterDot(k1, f1, k2, f2);
    LaterDot(k2, f2, k1, f1);
    assert a[..|k1|] == k1 && b[..|k2|] == k2 && a[|k1| + 1..] == f1 && b[|k2| + 1..] == f2;
  }

  /**
    Ids of one device: the folder differs from everything below it, objects
    and fields are named injectively, and an object clashes with a field of
    another key exactly when its key is that key, a dot and the field name.
   */
  lemma IdsDistinct(device: string, k1: string, f1: string, k2: string, f2: string)
    requires IsField(f1) && IsField(f2)
    ensures ClientFolderId(device) != SnapshotObjectId(device, k1) && ClientFolderId(device) != SnapshotFieldId(device, k1, f1)
    ensures SnapshotObjectId(device, k1) == SnapshotObjectId(device, k2) <==> k1 == k2
    ensures SnapshotFieldId(device, k1, f1) == SnapshotFieldId(device, k2, f2) <==> k1 == k2 && f1 == f2
    ensures SnapshotObjectId(device, k1) == SnapshotFieldId(device, k2, f2) <==> k1 == k2 + "." + f2
  {
    var n := |device| + 1;
    assert SnapshotObjectId(device, k1)[n..] == k1 && SnapshotObjectId(device, k2)[n..] == k2;
    assert SnapshotFieldId(device, k1, f1)[n..] == k1 + "." + f1 && SnapshotFieldId(device, k2, f2)[n..] == k2 + "." + f2;
    assert |SnapshotObjectId(device, k1)| > |device| && |SnapshotFieldId(device, k1, f1)| > |device|;
    if SnapshotFieldId(device, k1, f1) == SnapshotFieldId(device, k2, f2) {
      SplitAtLastDot(k1, f1, k2, f2);
    }
    if k1 == k2 + "." + f2 {
      assert SnapshotObjectId(device, k1) == SnapshotFieldId(device, k2, f2);
    }
  }

  /** Keys whose ids are all distinct. */
  ghost predicate ClashFree(keys: iset<string>) {
    forall k1, k2, f :: k1 in keys && k2 in keys && IsField(f) ==> k1 != k2 + "." + f
  }

  /** Keys without dots never clash. */
  lemma DotFreeKeysAreClashFree(keys: iset<string>)
    requires forall k :: k in keys ==> '.' !in k
    ensures ClashFree(keys)
  {
    forall k1, k2, f | k1 in keys && k2 in keys && IsField(f) ensures k1 != k2 + "." + f {
      assert (k2 + "." + f)[|k2|] == '.';
    }
  }
}
