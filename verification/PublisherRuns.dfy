/**
  What the publishing client leaves on a tree, call by call: places found or
  created in order up to the first refusal, the cache of ensured keys, and the
  values written. Any keys are covered, those that clash included.
 */
module PublisherRuns {
  import opened OpcUaLayout
  import opened Publisher

  /** The node stands where the layout puts it. */
  predicate Stands(nodes: Nodes, device: string, p: Place) {
    IsChild(nodes, IdAt(device, p), ParentAt(device, p), NameAt(device, p))
  }

  ghost predicate PathOk(nodes: Nodes, device: string, p: Place) {
    forall c :: IsChild(nodes, c, ParentAt(device, p), NameAt(device, p)) ==> c == IdAt(device, p)
  }

  /** Browsing for a place of these keys finds the layout's node or none: so on a fresh tree, and on what the client leaves. */
  ghost predicate LaidOut(nodes: Nodes, device: string, keys: iset<string>) {
    && CLIENTS in nodes && device != CLIENTS_FOLDER_NAME
    && forall p {:trigger PathOk(nodes, device, p)} :: InScheme(p, keys) ==> PathOk(nodes, device, p)
  }

  /** The gate's part of it: every place but those of the empty key. */
  predicate Admitted(p: Place) { p.FolderPlace? || p.key != "" }

  /** A place can be had: found, or admitted with its id free and its parent there. */
  predicate Takes(nodes: Nodes, device: string, p: Place) {
    Stands(nodes, device, p) || (Admitted(p) && IdAt(device, p) !in nodes && ParentAt(device, p) in nodes)
  }

  /** The places of a key in the order the client ensures them. */
  function PlacesOf(key: string): seq<Place> {
    [ObjectPlace(key), FieldPlace(key, NameField), FieldPlace(key, VendorField), FieldPlace(key, TypeField), FieldPlace(key, SensorsField)]
  }

  datatype Progress = Progress(nodes: Nodes, ok: bool)

  function EnsureNext(before: Progress, device: string, p: Place): Progress {
    if before.ok && Takes(before.nodes, device, p) then before.(nodes := GrownAt(before.nodes, device, p)) else before.(ok := false)
  }

  /** Places found or created in order, up to the first refusal; what was created before it stays. */
  function EnsureAll(nodes: Nodes, device: string, places: seq<Place>): Progress {
    if places == [] then Progress(nodes, true)
    else EnsureNext(EnsureAll(nodes, device, places[..|places| - 1]), device, places[|places| - 1])
  }

  /** The tree and the cached keys between two snapshots; not ok once a service call was refused, which ends the client. */
  datatype Sending = Sending(nodes: Nodes, cache: set<string>, ok: bool)

  /** The subtree of a key, ensured unless cached. */
  function EnsureKey(st: Sending, device: string, key: string): Sending {
    if key in st.cache then st
    else
      var p := EnsureAll(st.nodes, device, PlacesOf(key));
      Sending(p.nodes, if p.ok then st.cache + {key} else st.cache, p.ok)
  }

  function SendOne(st: Sending, device: string, s: Snapshot): Sending {
    if !st.ok then st
    else
      var ensured := EnsureKey(st, device, s.name);
      if ensured.ok then ensured.(nodes := Written(ensured.nodes, device, s)) else ensured
  }

  function Send(st: Sending, device: string, drained: seq<Snapshot>): Sending {
    if drained == [] then st
    else SendOne(Send(st, device, drained[..|drained| - 1]), device, drained[|drained| - 1])
  }

  /** A client's run: the folder first, then everything drained, starting with an empty cache. */
  function ClientRun(nodes: Nodes, device: string, drained: seq<Snapshot>): Sending {
    if Takes(nodes, device, FolderPlace) then Send(Sending(GrownAt(nodes, device, FolderPlace), {}, true), device, drained)
    else Sending(nodes, {}, false)
  }

  // ------------------------------------------------------ laid out for good

  /** No node is lost or moved. */
  ghost predicate Extends(before: Nodes, after: Nodes) {
    forall id :: id in before ==> id in after && after[id].parent == before[id].parent && after[id].name == before[id].name
  }

  lemma ExtendsTrans(a: Nodes, b: Nodes, c: Nodes)
    requires Extends(a, b) && Extends(b, c)
    ensures Extends(a, c)
  {}

  lemma PathsDistinct(device: string, p: Place, q: Place)
    requires device != CLIENTS_FOLDER_NAME && p != q
    ensures ParentAt(device, p) != ParentAt(device, q) || NameAt(device, p) != NameAt(device, q)
  {
    var k1, k2 := if p.FolderPlace? then "" else p.key, if q.FolderPlace? then "" else q.key;
    IdsDistinct(device, k1, "name", k2, "name");
    IdsDistinct(device, k2, "name", k1, "name");
    ObjectsAreNotClients(device, k1);
    ObjectsAreNotClients(device, k2);
  }

  lemma GrowLaidOut(nodes: Nodes, device: string, keys: iset<string>, p: Place)
    requires LaidOut(nodes, device, keys)
    ensures LaidOut(GrownAt(nodes, device, p), device, keys) && Extends(nodes, GrownAt(nodes, device, p))
    ensures Takes(nodes, device, p) ==> Stands(GrownAt(nodes, device, p), device, p)
  {
    var after := GrownAt(nodes, device, p);
    forall q | InScheme(q, keys) ensures PathOk(after, device, q) {
      assert PathOk(nodes, device, q);
      if q != p { PathsDistinct(device, p, q); }
      assert forall c :: IsChild(after, c, ParentAt(device, q), NameAt(device, q)) ==>
        c == IdAt(device, p) || IsChild(nodes, c, ParentAt(device, q), NameAt(device, q));
    }
  }

  /** Writing values moves no node either. */
  lemma {:induction false} WriteLaidOut(nodes: Nodes, device: string, keys: iset<string>, s: Snapshot, fields: seq<Field>)
    requires LaidOut(nodes, device, keys)
    ensures LaidOut(WriteFields(nodes, device, s, fields), device, keys) && Extends(nodes, WriteFields(nodes, device, s, fields))
    ensures WriteFields(nodes, device, s, fields).Keys == nodes.Keys
  {
    if fields != [] {
      WriteLaidOut(nodes, device, keys, s, fields[..|fields| - 1]);
      var before, after := WriteFields(nodes, device, s, fields[..|fields| - 1]), WriteFields(nodes, device, s, fields);
      forall q | InScheme(q, keys) ensures PathOk(after, device, q) {
        assert PathOk(before, device, q);
        assert forall c :: IsChild(after, c, ParentAt(device, q), NameAt(device, q)) ==>
          IsChild(before, c, ParentAt(device, q), NameAt(device, q));
      }
    }
  }

  ghost predicate AllStand(nodes: Nodes, device: string, places: seq<Place>) {
    forall k :: 0 <= k < |places| ==> Stands(nodes, device, places[k])
  }

  lemma OneMoreStands(before: Nodes, after: Nodes, device: string, places: seq<Place>)
    requires places != [] && AllStand(before, device, places[..|places| - 1]) && Extends(before, after)
    requires Stands(after, device, places[|places| - 1])
    ensures AllStand(after, device, places)
  {
    forall k | 0 <= k < |places| ensures Stands(after, device, places[k]) {
      if k < |places| - 1 { assert Stands(before, device, places[..|places| - 1][k]); }
    }
  }

  lemma {:induction false} EnsureAllLaidOut(nodes: Nodes, device: string, keys: iset<string>, places: seq<Place>)
    requires LaidOut(nodes, device, keys)
    ensures var r := EnsureAll(nodes, device, places);
            LaidOut(r.nodes, device, keys) && Extends(nodes, r.nodes) && (r.ok ==> AllStand(r.nodes, device, places))
  {
    if places != [] {
      var init, p := places[..|places| - 1], places[|places| - 1];
      EnsureAllLaidOut(nodes, device, keys, init);
      var before := EnsureAll(nodes, device, init).nodes;
      var after := EnsureAll(nodes, device, places);
      GrowLaidOut(before, device, keys, p);
      ExtendsTrans(nodes, before, after.nodes);
      if after.ok { OneMoreStands(before, after.nodes, device, places); }
    }
  }

  ghost predicate SubtreeStands(nodes: Nodes, device: string, key: string) {
    Stands(nodes, device, ObjectPlace(key)) && forall f :: Stands(nodes, device, FieldPlace(key, f))
  }

  /** The state between two snapshots: the tree laid out, the subtree of every cached key standing. */
  ghost predicate SendingOk(st: Sending, device: string, keys: iset<string>) {
    LaidOut(st.nodes, device, keys) && forall k :: k in st.cache ==> SubtreeStands(st.nodes, device, k)
  }

  lemma EnsuredSubtree(nodes: Nodes, device: string, key: string)
    requires AllStand(nodes, device, PlacesOf(key))
    ensures SubtreeStands(nodes, device, key)
  {
    forall f ensures Stands(nodes, device, FieldPlace(key, f)) {
      var k := match f case NameField => 1 case VendorField => 2 case TypeField => 3 case SensorsField => 4;
      assert PlacesOf(key)[k] == FieldPlace(key, f);
    }
    assert PlacesOf(key)[0] == ObjectPlace(key);
  }

  lemma SubtreesStay(before: Nodes, after: Nodes, device: string, cache: set<string>)
    requires Extends(before, after) && forall k :: k in cache ==> SubtreeStands(before, device, k)
    ensures forall k :: k in cache ==> SubtreeStands(after, device, k)
  {
    forall k | k in cache ensures SubtreeStands(after, device, k) {
      assert Stands(before, device, ObjectPlace(k)) && forall f :: Stands(before, device, FieldPlace(k, f));
    }
  }

  /** What one snapshot changes: nodes are added, keys are cached, and a snapshot that went through has its key cached. */
  ghost predicate Follows(st: Sending, after: Sending, device: string, keys: iset<string>) {
    SendingOk(after, device, keys) && Extends(st.nodes, after.nodes) && st.cache <= after.cache
  }

  lemma EnsureKeyOk(st: Sending, device: string, keys: iset<string>, key: string)
    requires SendingOk(st, device, keys) && st.ok
    ensures Follows(st, EnsureKey(st, device, key), device, keys)
    ensures EnsureKey(st, device, key).ok ==>
      EnsureKey(st, device, key).cache == st.cache + {key} && SubtreeStands(EnsureKey(st, device, key).nodes, device, key)
  {
    if key !in st.cache {
      var p := EnsureAll(st.nodes, device, PlacesOf(key));
      EnsureAllLaidOut(st.nodes, device, keys, PlacesOf(key));
      SubtreesStay(st.nodes, p.nodes, device, st.cache);
      if p.ok { EnsuredSubtree(p.nodes, device, key); }
    } else {
      assert st.cache + {key} == st.cache;
    }
  }

  lemma WrittenFollows(st: Sending, device: string, keys: iset<string>, s: Snapshot)
    requires SendingOk(st, device, keys)
    ensures Follows(st, st.(nodes := Written(st.nodes, device, s)), device, keys)
  {
    WriteLaidOut(st.nodes, device, keys, s, FIELDS);
    SubtreesStay(st.nodes, Written(st.nodes, device, s), device, st.cache);
  }

  lemma SendOneOk(st: Sending, device: string, keys: iset<string>, s: Snapshot)
    requires SendingOk(st, device, keys)
    ensures Follows(st, SendOne(st, device, s), device, keys)
    ensures SendOne(st, device, s).ok ==> st.ok && SendOne(st, device, s).cache == st.cache + {s.name}
  {
    if st.ok {
      var ensured := EnsureKey(st, device, s.name);
      EnsureKeyOk(st, device, keys, s.name);
      if ensured.ok {
        WrittenFollows(ensured, device, keys, s);
        FollowsTrans(st, ensured, SendOne(st, device, s), device, keys);
      }
    }
  }

  lemma FollowsTrans(a: Sending, b: Sending, c: Sending, device: string, keys: iset<string>)
    requires Follows(a, b, device, keys) && Follows(b, c, device, keys)
    ensures Follows(a, c, device, keys)
  {
    ExtendsTrans(a.nodes, b.nodes, c.nodes);
  }

  function NamesOf(drained: seq<Snapshot>): set<string> {
    if drained == [] then {} else NamesOf(drained[..|drained| - 1]) + {drained[|drained| - 1].name}
  }

  lemma {:induction false} SendOk(st: Sending, device: string, keys: iset<string>, drained: seq<Snapshot>)
    requires SendingOk(st, device, keys)
    ensures Follows(st, Send(st, device, drained), device, keys)
    ensures Send(st, device, drained).ok ==> Send(st, device, drained).cache == st.cache + NamesOf(drained)
  {
    if drained != [] {
      var before, s := Send(st, device, drained[..|drained| - 1]), drained[|drained| - 1];
      SendOk(st, device, keys, drained[..|drained| - 1]);
      SendOneOk(before, device, keys, s);
      FollowsTrans(st, before, SendOne(before, device, s), device, keys);
    }
  }

  lemma {:induction false} SendConcat(st: Sending, device: string, a: seq<Snapshot>, b: seq<Snapshot>)
    ensures Send(st, device, a + b) == Send(Send(st, device, a), device, b)
  {
    if b == [] {
      assert a + b == a;
    } else {
      assert (a + b)[..|a + b| - 1] == a + b[..|b| - 1];
      SendConcat(st, device, a, b[..|b| - 1]);
    }
  }

  /** Once refused, nothing more is done. */
  lemma {:induction false} SendStops(st: Sending, device: string, drained: seq<Snapshot>)
    requires !st.ok
    ensures Send(st, device, drained) == st
  {
    if drained != [] { SendStops(st, device, drained[..|drained| - 1]); }
  }

  lemma SendFirst(st: Sending, device: string, drained: seq<Snapshot>, i: nat)
    requires i < |drained|
    ensures Send(st, device, drained[..i + 1]) == SendOne(Send(st, device, drained[..i]), device, drained[i])
    ensures !Send(st, device, drained[..i + 1]).ok ==> Send(st, device, drained) == Send(st, device, drained[..i + 1])
  {
    assert drained[..i + 1][..i] == drained[..i];
    assert drained[..i + 1] + drained[i + 1..] == drained;
    SendConcat(st, device, drained[..i + 1], drained[i + 1..]);
    if !Send(st, device, drained[..i + 1]).ok { SendStops(Send(st, device, drained[..i + 1]), device, drained[i + 1..]); }
  }

  lemma EnsureAllUnfold(nodes: Nodes, device: string, key: string)
    ensures var p0 := EnsureNext(Progress(nodes, true), device, ObjectPlace(key));
            var p1 := EnsureNext(p0, device, FieldPlace(key, NameField));
            var p2 := EnsureNext(p1, device, FieldPlace(key, VendorField));
            var p3 := EnsureNext(p2, device, FieldPlace(key, TypeField));
            EnsureAll(nodes, device, PlacesOf(key)) == EnsureNext(p3, device, FieldPlace(key, SensorsField))
  {
    var ps := PlacesOf(key);
    assert ps[..4][..3] == ps[..3] && ps[..3][..2] == ps[..2] && ps[..2][..1] == ps[..1] && ps[..1][..0] == [];
    assert EnsureAll(nodes, device, ps[..1]) == EnsureNext(Progress(nodes, true), device, ObjectPlace(key));
    assert EnsureAll(nodes, device, ps[..2]) == EnsureNext(EnsureAll(nodes, device, ps[..1]), device, FieldPlace(key, NameField));
    assert EnsureAll(nodes, device, ps[..3]) == EnsureNext(EnsureAll(nodes, device, ps[..2]), device, FieldPlace(key, VendorField));
    assert EnsureAll(nodes, device, ps[..4]) == EnsureNext(EnsureAll(nodes, device, ps[..3]), device, FieldPlace(key, TypeField));
  }

  // ---------------------------------------------- where everything goes through

  lemma TreeOkIsLaidOut(nodes: Nodes, device: string, keys: iset<string>)
    requires TreeOk(nodes, device, keys)
    ensures LaidOut(nodes, device, keys)
  {
    forall p | InScheme(p, keys) ensures PathOk(nodes, device, p) {
      assert PlacedAt(nodes, device, p);
    }
  }

  /** The client folder is there, and no node has the id of an object of the empty key. */
  ghost predicate Publishable(nodes: Nodes, device: string, keys: iset<string>) {
    TreeOk(nodes, device, keys) && FolderId(device) in nodes && ObjectId(device, "") !in nodes
  }

  lemma NotTheEmptyObject(device: string, p: Place)
    requires Admitted(p)
    ensures IdAt(device, p) != ObjectId(device, "")
  {
    var key, f := if p.FolderPlace? then "" else p.key, if p.FieldPlace? then p.f else NameField;
    IdsDistinct(device, "", FieldName(f), key, FieldName(f));
  }

  /** On such a tree a place whose parent is there can be had. */
  lemma EnsureNextOk(nodes: Nodes, device: string, keys: iset<string>, p: Place)
    requires Publishable(nodes, device, keys) && InScheme(p, keys) && Admitted(p) && ParentAt(device, p) in nodes
    ensures EnsureNext(Progress(nodes, true), device, p) == Progress(GrownAt(nodes, device, p), true)
    ensures Publishable(GrownAt(nodes, device, p), device, keys) && IdAt(device, p) in GrownAt(nodes, device, p)
  {
    assert PlacedAt(nodes, device, p);
    GrowOk(nodes, device, keys, p);
    NotTheEmptyObject(device, p);
  }

  lemma EnsureAllOk(nodes: Nodes, device: string, keys: iset<string>, key: string)
    requires Publishable(nodes, device, keys) && key in keys && key != ""
    ensures EnsureAll(nodes, device, PlacesOf(key)) == Progress(WithSubtree(nodes, device, key), true)
  {
    var n0 := GrownAt(nodes, device, ObjectPlace(key));
    var n1 := GrownAt(n0, device, FieldPlace(key, NameField));
    var n2 := GrownAt(n1, device, FieldPlace(key, VendorField));
    var n3 := GrownAt(n2, device, FieldPlace(key, TypeField));
    EnsureNextOk(nodes, device, keys, ObjectPlace(key));
    EnsureNextOk(n0, device, keys, FieldPlace(key, NameField));
    EnsureNextOk(n1, device, keys, FieldPlace(key, VendorField));
    EnsureNextOk(n2, device, keys, FieldPlace(key, TypeField));
    EnsureNextOk(n3, device, keys, FieldPlace(key, SensorsField));
    EnsureAllUnfold(nodes, device, key);
    GrowFieldsUnfold(n0, device, key);
  }

  lemma PublishKeepsPublishable(nodes: Nodes, device: string, keys: iset<string>, s: Snapshot)
    requires Publishable(nodes, device, keys) && s.name in keys && s.name != ""
    ensures Publishable(Publish(nodes, device, s), device, keys)
  {
    PublishOk(nodes, device, keys, s);
    NotTheEmptyObject(device, ObjectPlace(s.name));
    forall f ensures FieldId(device, s.name, f) != ObjectId(device, "") {
      NotTheEmptyObject(device, FieldPlace(s.name, f));
    }
  }

  predicate NoEmptyKey(drained: seq<Snapshot>) {
    drained == [] || (NoEmptyKey(drained[..|drained| - 1]) && drained[|drained| - 1].name != "")
  }

  /** One snapshot goes through unless its key is empty; that one is refused and leaves no trace. */
  lemma SendOnePublishes(st: Sending, device: string, keys: iset<string>, s: Snapshot)
    requires Publishable(st.nodes, device, keys) && SendingOk(st, device, keys) && st.ok && s.name in keys
    ensures s.name != "" ==> SendOne(st, device, s) == Sending(Publish(st.nodes, device, s), st.cache + {s.name}, true)
    ensures s.name == "" ==> SendOne(st, device, s) == st.(ok := false)
  {
    if s.name in st.cache {
      assert Stands(st.nodes, device, ObjectPlace(s.name));
      assert SubtreeExists(st.nodes, device, s.name) by {
        forall f ensures FieldId(device, s.name, f) in st.nodes { assert Stands(st.nodes, device, FieldPlace(s.name, f)); }
      }
      SubtreeGrowOk(st.nodes, device, keys, s.name);
      assert st.cache + {s.name} == st.cache;
    } else if s.name == "" {
      EnsureAllUnfold(st.nodes, device, "");
    } else {
      EnsureAllOk(st.nodes, device, keys, s.name);
    }
  }

  lemma {:induction false} SendPublishes(st: Sending, device: string, keys: iset<string>, drained: seq<Snapshot>)
    requires Publishable(st.nodes, device, keys) && SendingOk(st, device, keys) && st.ok
    requires KeysIn(drained, keys) && NoEmptyKey(drained)
    ensures var r := Send(st, device, drained);
            r.ok && r.nodes == PublishAll(st.nodes, device, drained) && Publishable(r.nodes, device, keys)
  {
    if drained != [] {
      var init, s := drained[..|drained| - 1], drained[|drained| - 1];
      SendPublishes(st, device, keys, init);
      SendOk(st, device, keys, init);
      SendOnePublishes(Send(st, device, init), device, keys, s);
      PublishKeepsPublishable(PublishAll(st.nodes, device, init), device, keys, s);
    }
  }

  /**
    A run over a tree on which the device may publish these keys: everything
    goes through, and every key shows its last snapshot.
   */
  lemma RunPublishesAll(nodes: Nodes, device: string, keys: iset<string>, drained: seq<Snapshot>)
    requires TreeOk(nodes, device, keys) && ObjectId(device, "") !in nodes
    requires KeysIn(drained, keys) && NoEmptyKey(drained)
    ensures var r := ClientRun(nodes, device, drained);
            && r.ok && r.nodes == PublishAll(GrownAt(nodes, device, FolderPlace), device, drained)
            && Publishable(r.nodes, device, keys) && FolderReads(r.nodes, device)
            && forall key :: key in keys && LastSnapshot(drained, key).Some? ==>
                 ReadsBack(r.nodes, device, key, LastSnapshot(drained, key).value) && NamesUnique(r.nodes, device + "." + key)
  {
    var start := GrownAt(nodes, device, FolderPlace);
    assert PlacedAt(nodes, device, FolderPlace);
    GrowOk(nodes, device, keys, FolderPlace);
    NotTheEmptyObject(device, FolderPlace);
    TreeOkIsLaidOut(start, device, keys);
    SendPublishes(Sending(start, {}, true), device, keys, drained);
    EveryKeyReadsBack(start, device, keys, drained);
    FolderReadsBack(ClientRun(nodes, device, drained).nodes, device, keys);
  }

  // ------------------------------------------------------------- fresh trees

  /** A tree that has the clients folder and nothing of the device: other devices' subtrees may be there. */
  ghost predicate FreshFor(nodes: Nodes, device: string) {
    && CLIENTS in nodes && device != CLIENTS_FOLDER_NAME
    && forall id {:trigger nodes[id]} :: id in nodes ==>
         && !Under(id, device) && !Under(nodes[id].parent, device)
         && !(nodes[id].parent == CLIENTS && nodes[id].name == device)
  }

  const OBJECTS_FOLDER := Numeric(0, 85)

  /** The server's tree before any client came. */
  const EMPTY_TREE: Nodes := map[CLIENTS := Node(OBJECTS_FOLDER, CLIENTS_FOLDER_NAME, Empty)]

  lemma EmptyTreeIsFresh(device: string)
    requires device != CLIENTS_FOLDER_NAME
    ensures FreshFor(EMPTY_TREE, device)
  {
    assert (device + ".")[|device|] == '.';
  }

  lemma PlacesAreUnder(device: string, p: Place)
    ensures Under(IdAt(device, p), device)
    ensures !p.FolderPlace? ==> Under(ParentAt(device, p), device)
  {
    if !p.FolderPlace? { assert device + "." <= SnapshotObjectId(device, p.key); }
    if p.FieldPlace? { assert SnapshotFieldId(device, p.key, FieldName(p.f)) == device + "." + (p.key + "." + FieldName(p.f)); }
  }

  /** A fresh tree takes any keys that do not clash; whether they clash or not it is laid out. */
  lemma FreshTreeOk(nodes: Nodes, device: string, keys: iset<string>)
    requires FreshFor(nodes, device)
    ensures LaidOut(nodes, device, keys) && ObjectId(device, "") !in nodes && FolderId(device) !in nodes
    ensures TreeOk(nodes, device, keys) <==> ClashFree(keys)
  {
    forall p ensures PathOk(nodes, device, p) && PlacedAt(nodes, device, p) {
      PlacesAreUnder(device, p);
    }
    PlacesAreUnder(device, ObjectPlace(""));
    PlacesAreUnder(device, FolderPlace);
  }

  lemma {:induction false} NoEmptyObject(st: Sending, device: string, keys: iset<string>, drained: seq<Snapshot>)
    requires SendingOk(st, device, keys) && ObjectId(device, "") !in st.nodes
    ensures ObjectId(device, "") !in Send(st, device, drained).nodes
  {
    if drained != [] {
      var init, s := drained[..|drained| - 1], drained[|drained| - 1];
      NoEmptyObject(st, device, keys, init);
      SendOk(st, device, keys, init);
      var before := Send(st, device, init);
      EnsureAllWithoutEmpty(before.nodes, device, PlacesOf(s.name));
      WriteLaidOut(before.nodes, device, keys, s, FIELDS);
      EnsureAllLaidOut(before.nodes, device, keys, PlacesOf(s.name));
      WriteLaidOut(EnsureAll(before.nodes, device, PlacesOf(s.name)).nodes, device, keys, s, FIELDS);
    }
  }

  lemma {:induction false} EnsureAllWithoutEmpty(nodes: Nodes, device: string, places: seq<Place>)
    requires ObjectId(device, "") !in nodes
    ensures ObjectId(device, "") !in EnsureAll(nodes, device, places).nodes
  {
    if places != [] {
      EnsureAllWithoutEmpty(nodes, device, places[..|places| - 1]);
      if Admitted(places[|places| - 1]) { NotTheEmptyObject(device, places[|places| - 1]); }
    }
  }

  ghost function KeysOf(drained: seq<Snapshot>): iset<string> { iset k | k in NamesOf(drained) }

  lemma {:induction false} NamesAreKeys(drained: seq<Snapshot>)
    ensures KeysIn(drained, KeysOf(drained)) && (NoEmptyKey(drained) <==> "" !in NamesOf(drained))
  {
    if drained != [] {
      NamesAreKeys(drained[..|drained| - 1]);
      forall k | 0 <= k < |drained| ensures drained[k].name in NamesOf(drained) {
        if k < |drained| - 1 { assert drained[..|drained| - 1][k] == drained[k]; }
      }
    }
  }

  /** No tree holds the subtrees of clashing keys: one node would have two parents. */
  lemma SubtreesNeedClashFreeKeys(nodes: Nodes, device: string, keys: iset<string>)
    requires forall k :: k in keys ==> SubtreeStands(nodes, device, k)
    ensures ClashFree(keys)
  {
    forall k1, k2, f | k1 in keys && k2 in keys && IsField(f) ensures k1 != k2 + "." + f {
      var field := if f == "name" then NameField else if f == "vendor" then VendorField
                   else if f == "sensors" then SensorsField else TypeField;
      assert FieldName(field) == f;
      IdsDistinct(device, k1, f, k2, f);
      IdsDistinct(device, k2, f, k2, f);
      assert Stands(nodes, device, ObjectPlace(k1)) && Stands(nodes, device, FieldPlace(k2, field));
    }
  }

  /**
    From a fresh tree a run publishes everything it drains if and only if no
    drained key is empty and no drained key is another one, a dot and a field
    name.
   */
  lemma FreshRunCompletes(nodes: Nodes, device: string, drained: seq<Snapshot>)
    requires FreshFor(nodes, device)
    ensures ClientRun(nodes, device, drained).ok <==> NoEmptyKey(drained) && ClashFree(KeysOf(drained))
    ensures ClientRun(nodes, device, drained).ok ==>
      ClientRun(nodes, device, drained).nodes == PublishAll(GrownAt(nodes, device, FolderPlace), device, drained)
  {
    var keys := KeysOf(drained);
    FreshTreeOk(nodes, device, keys);
    NamesAreKeys(drained);
    if NoEmptyKey(drained) && ClashFree(keys) {
      RunPublishesAll(nodes, device, keys, drained);
    } else if ClientRun(nodes, device, drained).ok {
      var start := Sending(GrownAt(nodes, device, FolderPlace), {}, true);
      GrowLaidOut(nodes, device, keys, FolderPlace);
      NotTheEmptyObject(device, FolderPlace);
      SendOk(start, device, keys, drained);
      NoEmptyObject(start, device, keys, drained);
      var r := Send(start, device, drained);
      SubtreesNeedClashFreeKeys(r.nodes, device, keys);
    }
  }

  /** A key that is another key, a dot and a field name: with that key's subtree standing the snapshot is refused without a trace. */
  lemma FieldTakesTheObject(st: Sending, device: string, key: string, f: Field, s: Snapshot)
    requires st.ok && SubtreeStands(st.nodes, device, key) && s.name == key + "." + FieldName(f) && s.name !in st.cache
    ensures SendOne(st, device, s) == st.(ok := false)
  {
    IdsDistinct(device, s.name, FieldName(f), key, FieldName(f));
    IdsDistinct(device, key, FieldName(f), key, FieldName(f));
    assert Stands(st.nodes, device, FieldPlace(key, f));
    EnsureAllUnfold(st.nodes, device, s.name);
  }

  /** The other way round the object of the shorter key is created and then its name field refused: the object stays behind. */
  lemma ObjectTakesTheField(st: Sending, device: string, key: string, s: Snapshot)
    requires st.ok && SubtreeStands(st.nodes, device, key)
    requires key == s.name + "." + "name" && s.name !in st.cache && s.name != ""
    requires FolderId(device) in st.nodes && ObjectId(device, s.name) !in st.nodes
    ensures SendOne(st, device, s) == st.(nodes := GrownAt(st.nodes, device, ObjectPlace(s.name)), ok := false)
  {
    IdsDistinct(device, key, "name", s.name, "name");
    IdsDistinct(device, s.name, "name", s.name, "name");
    assert Stands(st.nodes, device, ObjectPlace(key));
    EnsureAllUnfold(st.nodes, device, s.name);
  }

  /**
    Such an input: "GPU" and "GPU.name" on a fresh tree. In either order the
    second one stops the client; one order leaves an object without fields.
   */
  lemma GpuAndGpuName(nodes: Nodes, device: string, gpu: Snapshot, gpuName: Snapshot)
    requires FreshFor(nodes, device) && gpu.name == "GPU" && gpuName.name == "GPU.name"
    ensures var start := GrownAt(nodes, device, FolderPlace);
            && ClientRun(nodes, device, [gpu, gpuName]) == Sending(Publish(start, device, gpu), {"GPU"}, false)
            && ClientRun(nodes, device, [gpuName, gpu])
               == Sending(GrownAt(Publish(start, device, gpuName), device, ObjectPlace("GPU")), {"GPU.name"}, false)
  {
    ClashOnFresh(nodes, device, gpu, gpuName);
  }

  /** The same for any key and its name field. */
  lemma ClashOnFresh(nodes: Nodes, device: string, short: Snapshot, long: Snapshot)
    requires FreshFor(nodes, device) && short.name != "" && long.name == short.name + "." + "name"
    ensures var start := GrownAt(nodes, device, FolderPlace);
            && ClientRun(nodes, device, [short, long]) == Sending(Publish(start, device, short), {short.name}, false)
            && ClientRun(nodes, device, [long, short])
               == Sending(GrownAt(Publish(start, device, long), device, ObjectPlace(short.name)), {long.name}, false)
  {
    var start := Sending(GrownAt(nodes, device, FolderPlace), {}, true);
    FirstOnFresh(nodes, device, short, "");
    FirstOnFresh(nodes, device, long, short.name);
    TwoSnapshots(start, device, short, long);
    TwoSnapshots(start, device, long, short);
    FieldTakesTheObject(SendOne(start, device, short), device, short.name, NameField, long);
    ObjectTakesTheField(SendOne(start, device, long), device, long.name, short);
  }

  lemma TwoSnapshots(st: Sending, device: string, a: Snapshot, b: Snapshot)
    ensures Send(st, device, [a, b]) == SendOne(SendOne(st, device, a), device, b)
  {
    assert [a, b][..1] == [a] && [a][..0] == [];
    assert Send(st, device, [a]) == SendOne(st, device, a);
  }

  /** The first snapshot on a fresh tree goes through; no object of a shorter key comes of it. */
  lemma FirstOnFresh(nodes: Nodes, device: string, s: Snapshot, other: string)
    requires FreshFor(nodes, device) && s.name != "" && |other| < |s.name|
    ensures var start := Sending(GrownAt(nodes, device, FolderPlace), {}, true);
            var r := SendOne(start, device, s);
            && Takes(nodes, device, FolderPlace) && r == Sending(Publish(start.nodes, device, s), {s.name}, true)
            && SubtreeStands(r.nodes, device, s.name) && FolderId(device) in r.nodes
            && ObjectId(device, other) !in r.nodes
  {
    var keys, start := iset{s.name}, GrownAt(nodes, device, FolderPlace);
    FreshStart(nodes, device, keys, other);
    SendOnePublishes(Sending(start, {}, true), device, keys, s);
    SendOneOk(Sending(start, {}, true), device, keys, s);
    PublishOk(start, device, keys, s);
    ShorterObjectStaysOut(start, Publish(start, device, s), device, s.name, other);
  }

  lemma FreshStart(nodes: Nodes, device: string, keys: iset<string>, other: string)
    requires FreshFor(nodes, device) && ClashFree(keys)
    ensures var start := GrownAt(nodes, device, FolderPlace);
            && Takes(nodes, device, FolderPlace) && Publishable(start, device, keys)
            && SendingOk(Sending(start, {}, true), device, keys) && ObjectId(device, other) !in start
  {
    FreshTreeOk(nodes, device, keys);
    assert PlacedAt(nodes, device, FolderPlace);
    GrowOk(nodes, device, keys, FolderPlace);
    NotTheEmptyObject(device, FolderPlace);
    TreeOkIsLaidOut(GrownAt(nodes, device, FolderPlace), device, keys);
    PlacesAreUnder(device, ObjectPlace(other));
    IdsDistinct(device, other, "name", other, "name");
  }

  lemma ShorterObjectStaysOut(before: Nodes, after: Nodes, device: string, key: string, other: string)
    requires OnlyKey(before, after, device, key) && ObjectId(device, other) !in before && |other| < |key|
    ensures ObjectId(device, other) !in after
  {
    IdsDistinct(device, other, "name", key, "name");
    forall f ensures ObjectId(device, other) != FieldId(device, key, f) {
      IdsDistinct(device, other, FieldName(f), key, FieldName(f));
    }
  }
}
