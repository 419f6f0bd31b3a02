/**
  The server with its gate, and the client that browses, creates, caches and
  writes: methods proved against the tree functions of Publisher and the runs
  of PublisherRuns.
 */
module PublisherClient {
  import opened Words
  import opened OpcUaLayout
  import opened Publisher
  import opened PublisherRuns
  import AC = AccessControl

  /** What browsing one name below a node gives; a missing node is an error other than no match. */
  datatype Browsed = Found(id: NodeId) | NoMatch | Failed

  ghost predicate HasChild(nodes: Nodes, parent: NodeId, name: string) {
    exists c :: IsChild(nodes, c, parent, name)
  }

  class Server {
    const access: AC.AccessControl
    var nodes: Nodes
    /** The nodes that were there at the start, and every node the AddNodes service created since, in order. */
    ghost const initial: set<NodeId>
    ghost var created: seq<NodeId>

    constructor (access: AC.AccessControl, nodes: Nodes)
      ensures this.access == access && this.nodes == nodes && initial == nodes.Keys && created == []
    {
      this.access, this.nodes, this.initial, this.created := access, nodes, nodes.Keys, [];
    }

    /** Every node that was not there at the start was created, and exactly once. */
    ghost predicate Valid()
      reads this, access
    {
      && access.clients == CLIENTS
      && (forall id :: id in nodes <==> id in initial || id in created)
      && (forall i :: 0 <= i < |created| ==> created[i] !in initial)
      && (forall i, j :: 0 <= i < j < |created| ==> created[i] != created[j])
    }

    /** The session is activated for the device; its folder is as every reachable state has it. */
    ghost predicate Trusts(session: NodeId, device: string)
      reads this, access
    {
      && session in access.sessions
      && var a := access.sessions[session];
         a.readWrite && a.deviceName == device && (a.folder == NULL_ID || BelongsTo(a.folder, device))
    }

    ghost predicate Lets(session: NodeId, parent: NodeId, requested: NodeId)
      reads this, access
    {
      session in access.sessions && AC.Admits(CLIENTS, access.sessions[session], parent, requested)
    }

    method TryBrowseChild(parent: NodeId, name: string) returns (r: Browsed)
      ensures r.Failed? <==> parent !in nodes
      ensures r.Found? ==> IsChild(nodes, r.id, parent, name)
      ensures r.NoMatch? ==> !HasChild(nodes, parent, name)
    {
      if parent !in nodes { return Failed; }
      if c :| c in nodes && IsChild(nodes, c, parent, name) {
        return Found(c);
      }
      return NoMatch;
    }

    /** AddNodes: the gate first, then the id must be free and the parent there. */
    method AddNode(session: NodeId, parent: NodeId, requested: NodeId, name: string) returns (ok: bool)
      requires Valid()
      modifies this, access
      ensures Valid()
      ensures ok <==> old(Lets(session, parent, requested)) && requested !in old(nodes) && parent in old(nodes)
      ensures nodes == if ok then old(nodes)[requested := Node(parent, name, Empty)] else old(nodes)
      ensures forall d :: old(Trusts(session, d)) ==> Trusts(session, d)
    {
      ok := access.AllowAddNode(session, parent, requested);
      if !ok || requested in nodes || parent !in nodes { return false; }
      nodes := nodes[requested := Node(parent, name, Empty)];
      created := created + [requested];
    }

    method WriteValue(id: NodeId, v: Value)
      requires Valid() && id in nodes
      modifies this`nodes
      ensures Valid() && nodes == SetValue(old(nodes), id, v)
    {
      nodes := nodes[id := nodes[id].(value := v)];
    }

    /**
      Browse, and create what is missing, on any tree: some child of that name,
      or else the requested node if the gate lets it in and its id is free.
      None stands for the exception of a refused call.
     */
    method EnsureChild(session: NodeId, parent: NodeId, requested: NodeId, name: string) returns (r: Option<NodeId>)
      requires Valid()
      modifies this, access
      ensures Valid()
      ensures r.Some? <==> parent in old(nodes) && (old(HasChild(nodes, parent, name))
                                                    || (old(Lets(session, parent, requested)) && requested !in old(nodes)))
      ensures r.Some? && old(HasChild(nodes, parent, name)) ==> IsChild(old(nodes), r.value, parent, name)
      ensures r.Some? && !old(HasChild(nodes, parent, name)) ==> r.value == requested
      ensures nodes == if r.Some? && !old(HasChild(nodes, parent, name))
                       then old(nodes)[requested := Node(parent, name, Empty)] else old(nodes)
      ensures forall d :: old(Trusts(session, d)) ==> Trusts(session, d)
    {
      var found := TryBrowseChild(parent, name);
      if found.Found? { return Some(found.id); }
      if found.Failed? { return None; }
      var ok := AddNode(session, parent, requested, name);
      r := if ok then Some(requested) else None;
    }
  }

  /** The gate takes every place of the layout below its parent but those of the empty key. */
  lemma GateAdmits(server: Server, session: NodeId, device: string, p: Place)
    requires server.Valid() && server.Trusts(session, device)
    ensures server.Lets(session, ParentAt(device, p), IdAt(device, p)) <==> Admitted(p)
  {
    ObjectsAreNotClients(device, "");
    match p
    case FolderPlace => LayoutBelongs(device, "", "");
    case ObjectPlace(key) => LayoutBelongs(device, key, "");
    case FieldPlace(key, f) => LayoutBelongs(device, key, FieldName(f));
  }

  class SystemInfoClient {
    const server: Server
    const session: NodeId
    const device: string
    var clientFolder: Option<NodeId>
    var deviceNodes: map<string, SnapshotNodeIds>

    constructor (server: Server, session: NodeId, device: string)
      ensures this.server == server && this.session == session && this.device == device
      ensures clientFolder == None && deviceNodes == map[]
    {
      this.server, this.session, this.device := server, session, device;
      clientFolder, deviceNodes := None, map[];
    }

    /** Before and between the service calls: an activated session, and a tree laid out for the keys in use. */
    ghost predicate Ready(keys: iset<string>)
      reads this, server, server.access
    {
      server.Valid() && server.Trusts(session, device) && LaidOut(server.nodes, device, keys)
    }

    /** The cache names the real nodes of each key it holds. */
    ghost predicate Valid(keys: iset<string>)
      reads this, server, server.access
    {
      && Ready(keys) && SendingOk(State(), device, keys)
      && (clientFolder.Some? ==> clientFolder.value == FolderId(device))
      && forall key :: key in deviceNodes ==> deviceNodes[key] == IdsOf(device, key)
    }

    ghost function State(): Sending
      reads this, server
    {
      Sending(server.nodes, deviceNodes.Keys, true)
    }

    /** One place below the parent found for it. */
    method Ensure(place: Place, parent: NodeId, ghost keys: iset<string>) returns (r: Option<NodeId>)
      requires Ready(keys) && InScheme(place, keys) && parent == ParentAt(device, place) && parent in server.nodes
      modifies server, server.access
      ensures Ready(keys)
      ensures EnsureNext(Progress(old(server.nodes), true), device, place) == Progress(server.nodes, r.Some?)
      ensures r.Some? ==> r.value == IdAt(device, place) && Stands(server.nodes, device, place)
    {
      assert PathOk(server.nodes, device, place);
      GateAdmits(server, session, device, place);
      GrowLaidOut(server.nodes, device, keys, place);
      r := server.EnsureChild(session, parent, IdAt(device, place), NameAt(device, place));
    }

    /** The client folder; false when a service call is refused, which leaves the folder unset. */
    method AddNodes(ghost keys: iset<string>) returns (ok: bool)
      requires Valid(keys)
      modifies this`clientFolder, server, server.access
      ensures Valid(keys)
      ensures EnsureNext(Progress(old(server.nodes), true), device, FolderPlace) == Progress(server.nodes, ok)
      ensures clientFolder == if ok then Some(FolderId(device)) else old(clientFolder)
    {
      ghost var before, cache := server.nodes, deviceNodes.Keys;
      GrowLaidOut(before, device, keys, FolderPlace);
      var folder := Ensure(FolderPlace, CLIENTS, keys);
      SubtreesStay(before, server.nodes, device, cache);
      ok := folder.Some?;
      if ok { clientFolder := folder; }
    }

    /** One field below its object. */
    method EnsureField(obj: NodeId, key: string, f: Field, ghost keys: iset<string>) returns (r: Option<NodeId>)
      requires Ready(keys) && key in keys && obj == ObjectId(device, key) && obj in server.nodes
      modifies server, server.access
      ensures Ready(keys) && Extends(old(server.nodes), server.nodes)
      ensures EnsureNext(Progress(old(server.nodes), true), device, FieldPlace(key, f)) == Progress(server.nodes, r.Some?)
      ensures r.Some? ==> r.value == FieldId(device, key, f)
    {
      GrowLaidOut(server.nodes, device, keys, FieldPlace(key, f));
      r := Ensure(FieldPlace(key, f), obj, keys);
    }

    /** Object, name, vendor, hardware_type, sensors: browsed, or created in this order up to the first refusal. */
    method EnsureSnapshotNode(key: string, ghost keys: iset<string>) returns (ids: Option<SnapshotNodeIds>)
      requires Ready(keys) && key in keys && FolderId(device) in server.nodes
      modifies server, server.access
      ensures Ready(keys)
      ensures EnsureAll(old(server.nodes), device, PlacesOf(key)) == Progress(server.nodes, ids.Some?)
      ensures ids.Some? ==> ids.value == IdsOf(device, key)
    {
      EnsureAllUnfold(server.nodes, device, key);
      var obj := Ensure(ObjectPlace(key), FolderId(device), keys);
      if obj.None? { return None; }
      var name := EnsureField(obj.value, key, NameField, keys);
      if name.None? { return None; }
      var vendor := EnsureField(obj.value, key, VendorField, keys);
      if vendor.None? { return None; }
      var hardwareType := EnsureField(obj.value, key, TypeField, keys);
      if hardwareType.None? { return None; }
      var sensors := EnsureField(obj.value, key, SensorsField, keys);
      if sensors.None? { return None; }
      ids := Some(SnapshotNodeIds(obj.value, name.value, vendor.value, hardwareType.value, sensors.value));
    }

    method WriteSnapshot(ids: SnapshotNodeIds, s: Snapshot)
      requires server.Valid() && ids == IdsOf(device, s.name) && SubtreeExists(server.nodes, device, s.name)
      modifies server`nodes
      ensures server.Valid() && server.nodes == Written(old(server.nodes), device, s)
    {
      WriteFieldsUnfold(server.nodes, device, s);
      server.WriteValue(ids.name, Text(s.name));
      server.WriteValue(ids.vendor, Text(s.vendor));
      server.WriteValue(ids.hardwareType, Text(s.hardwareType));
      server.WriteValue(ids.sensors, Sensors(s.sensors));
    }

    /** The nodes of a key: cached, or ensured and then cached. */
    method NodesFor(key: string, ghost keys: iset<string>) returns (ok: bool)
      requires Valid(keys) && FolderId(device) in server.nodes && key in keys
      modifies this`deviceNodes, server, server.access
      ensures Valid(keys) && EnsureKey(old(State()), device, key) == State().(ok := ok)
      ensures ok ==> key in deviceNodes
    {
      if key in deviceNodes { return true; }
      EnsureKeyOk(State(), device, keys, key);
      var ids := EnsureSnapshotNode(key, keys);
      if ids.None? { return false; }
      deviceNodes := deviceNodes[key := ids.value];
      assert deviceNodes.Keys == old(deviceNodes.Keys) + {key};
      ok := true;
    }

    /** One drained snapshot: ensure its subtree unless cached, then write. */
    method PublishOne(s: Snapshot, ghost keys: iset<string>) returns (ok: bool)
      requires Valid(keys) && FolderId(device) in server.nodes && s.name in keys
      modifies this`deviceNodes, server, server.access
      ensures Valid(keys) && FolderId(device) in server.nodes
      ensures SendOne(old(State()), device, s) == State().(ok := ok)
    {
      SendOneOk(State(), device, keys, s);
      ok := NodesFor(s.name, keys);
      if ok {
        StandingExists(server.nodes, device, s.name);
        WrittenFollows(State(), device, keys, s);
        WriteSnapshot(deviceNodes[s.name], s);
      }
    }

    /**
      One drain: everything is published in order, up to a snapshot for which a
      call is refused. False stands for the exception, or for a missing folder.
     */
    method SendTelemetryPayload(drained: seq<Snapshot>, ghost keys: iset<string>) returns (ok: bool)
      requires Valid(keys) && (clientFolder.Some? ==> FolderId(device) in server.nodes) && KeysIn(drained, keys)
      modifies this`deviceNodes, server, server.access
      ensures Valid(keys) && (clientFolder.Some? ==> FolderId(device) in server.nodes)
      ensures clientFolder.None? ==> !ok && State() == old(State())
      ensures clientFolder.Some? ==> Send(old(State()), device, drained) == State().(ok := ok)
    {
      if clientFolder.None? { return false; }
      ghost var start := State();
      var i := 0;
      while i < |drained|
        invariant 0 <= i <= |drained| && Valid(keys) && FolderId(device) in server.nodes
        invariant Send(start, device, drained[..i]) == State()
      {
        SendFirst(start, device, drained, i);
        var one := PublishOne(drained[i], keys);
        if !one { return false; }
        i := i + 1;
      }
      assert drained[..i] == drained;
      ok := true;
    }
  }

  lemma StandingExists(nodes: Nodes, device: string, key: string)
    requires SubtreeStands(nodes, device, key)
    ensures SubtreeExists(nodes, device, key)
  {
    forall f ensures FieldId(device, key, f) in nodes { assert Stands(nodes, device, FieldPlace(key, f)); }
  }

  function Flatten(batches: seq<seq<Snapshot>>): seq<Snapshot> {
    if batches == [] then [] else Flatten(batches[..|batches| - 1]) + batches[|batches| - 1]
  }

  ghost predicate BatchesIn(batches: seq<seq<Snapshot>>, keys: iset<string>) {
    forall i :: 0 <= i < |batches| ==> KeysIn(batches[i], keys)
  }

  /** The client's main loop: one drain after another, until one fails. */
  method SendAll(client: SystemInfoClient, batches: seq<seq<Snapshot>>, ghost keys: iset<string>) returns (ok: bool)
    requires client.Valid(keys) && client.clientFolder.Some? && FolderId(client.device) in client.server.nodes
    requires BatchesIn(batches, keys)
    modifies client`deviceNodes, client.server, client.server.access
    ensures client.Valid(keys)
    ensures Send(old(client.State()), client.device, Flatten(batches)) == client.State().(ok := ok)
  {
    ghost var start := client.State();
    var i := 0;
    while i < |batches|
      invariant 0 <= i <= |batches| && client.Valid(keys) && client.clientFolder.Some?
      invariant FolderId(client.device) in client.server.nodes
      invariant Send(start, client.device, Flatten(batches[..i])) == client.State()
    {
      BatchStep(start, client.device, batches, i);
      var one := client.SendTelemetryPayload(batches[i], keys);
      if !one { return false; }
      i := i + 1;
    }
    assert batches[..i] == batches;
    ok := true;
  }

  lemma BatchStep(st: Sending, device: string, batches: seq<seq<Snapshot>>, i: nat)
    requires i < |batches|
    ensures Send(st, device, Flatten(batches[..i + 1])) == Send(Send(st, device, Flatten(batches[..i])), device, batches[i])
    ensures !Send(st, device, Flatten(batches[..i + 1])).ok ==>
              Send(st, device, Flatten(batches)) == Send(st, device, Flatten(batches[..i + 1]))
  {
    assert batches[..i + 1][..i] == batches[..i];
    SendConcat(st, device, Flatten(batches[..i]), batches[i]);
    var rest := FlattenSplit(batches, i + 1);
    SendConcat(st, device, Flatten(batches[..i + 1]), rest);
    if !Send(st, device, Flatten(batches[..i + 1])).ok { SendStops(Send(st, device, Flatten(batches[..i + 1])), device, rest); }
  }

  lemma {:induction false} FlattenSplit(batches: seq<seq<Snapshot>>, i: nat) returns (rest: seq<Snapshot>)
    requires i <= |batches|
    ensures Flatten(batches) == Flatten(batches[..i]) + rest
    decreases |batches|
  {
    if i == |batches| {
      assert batches[..i] == batches;
      rest := [];
    } else {
      var init := batches[..|batches| - 1];
      var before := FlattenSplit(init, i);
      assert init[..i] == batches[..i];
      rest := before + batches[|batches| - 1];
    }
  }

  lemma {:induction false} FlattenKeys(batches: seq<seq<Snapshot>>, keys: iset<string>)
    requires BatchesIn(batches, keys)
    ensures KeysIn(Flatten(batches), keys)
  {
    if batches != [] {
      assert BatchesIn(batches[..|batches| - 1], keys);
      FlattenKeys(batches[..|batches| - 1], keys);
    }
  }

  lemma RunLaws(nodes: Nodes, device: string, keys: iset<string>, drained: seq<Snapshot>)
    requires KeysIn(drained, keys)
    ensures FreshFor(nodes, device) ==>
      (ClientRun(nodes, device, drained).ok <==> NoEmptyKey(drained) && ClashFree(KeysOf(drained)))
    ensures TreeOk(nodes, device, keys) && ObjectId(device, "") !in nodes && NoEmptyKey(drained) ==>
      ClientRun(nodes, device, drained).ok && forall key :: key in keys && LastSnapshot(drained, key).Some? ==>
        ReadsBack(ClientRun(nodes, device, drained).nodes, device, key, LastSnapshot(drained, key).value)
  {
    if FreshFor(nodes, device) { FreshRunCompletes(nodes, device, drained); }
    if TreeOk(nodes, device, keys) && ObjectId(device, "") !in nodes && NoEmptyKey(drained) {
      RunPublishesAll(nodes, device, keys, drained);
    }
  }

  /**
    A whole client run on any laid-out tree, fresh or left by earlier runs:
    start with an empty cache, find or create the folder, publish every
    drained batch until a call is refused.
   */
  method RunClient(server: Server, session: NodeId, device: string, batches: seq<seq<Snapshot>>, ghost keys: iset<string>)
    returns (ok: bool)
    requires server.Valid() && server.Trusts(session, device) && LaidOut(server.nodes, device, keys)
    requires BatchesIn(batches, keys)
    modifies server, server.access
    ensures server.Valid() && server.Trusts(session, device) && LaidOut(server.nodes, device, keys)
    ensures ClientRun(old(server.nodes), device, Flatten(batches)).nodes == server.nodes
    ensures ClientRun(old(server.nodes), device, Flatten(batches)).ok == ok
    ensures FreshFor(old(server.nodes), device) ==>
      (ok <==> NoEmptyKey(Flatten(batches)) && ClashFree(KeysOf(Flatten(batches))))
    ensures TreeOk(old(server.nodes), device, keys) && ObjectId(device, "") !in old(server.nodes) && NoEmptyKey(Flatten(batches)) ==>
      ok && forall key :: key in keys && LastSnapshot(Flatten(batches), key).Some? ==>
              ReadsBack(server.nodes, device, key, LastSnapshot(Flatten(batches), key).value)
  {
    FlattenKeys(batches, keys);
    RunLaws(server.nodes, device, keys, Flatten(batches));
    var client := new SystemInfoClient(server, session, device);
    assert client.State() == Sending(server.nodes, {}, true);
    ok := client.AddNodes(keys);
    if ok {
      ok := SendAll(client, batches, keys);
    }
  }
}
