/**
  Several devices publishing on one server, their starts and snapshots
  interleaved in any order, each client with its own cache and every call
  subject to the gate: as long as no name is a dotted prefix of another,
  nothing is refused and every device's keys show what it published last.
 */
module SharedServer {
  import opened Words
  import opened OpcUaLayout
  import opened Publisher
  import opened PublisherRuns

  datatype Event = Starts(device: string) | Publishes(device: string, snapshot: Snapshot)

  function TreeStep(nodes: Nodes, e: Event): Nodes {
    match e
    case Starts(device) => GrownAt(nodes, device, FolderPlace)
    case Publishes(device, s) => Publish(nodes, device, s)
  }

  function TreeAfter(nodes: Nodes, events: seq<Event>): Nodes {
    if events == [] then nodes else TreeStep(TreeAfter(nodes, events[..|events| - 1]), events[|events| - 1])
  }

  /** The last snapshot a device published under a key. */
  function LastOf(events: seq<Event>, device: string, key: string): Option<Snapshot> {
    if events == [] then None
    else
      var e := events[|events| - 1];
      if e.Publishes? && e.device == device && e.snapshot.name == key then Some(e.snapshot)
      else LastOf(events[..|events| - 1], device, key)
  }

  ghost predicate Apart(devices: iset<string>) {
    forall d1, d2 :: d1 in devices && d2 in devices && d1 != d2 ==> !Related(d1, d2)
  }

  /** Events of these devices, each with its own keys, none of them empty. */
  ghost predicate EventsIn(events: seq<Event>, devices: iset<string>, keys: string -> iset<string>) {
    forall i :: 0 <= i < |events| ==>
      && events[i].device in devices
      && (events[i].Publishes? ==> events[i].snapshot.name != "" && events[i].snapshot.name in keys(events[i].device))
  }

  ghost predicate AllOk(nodes: Nodes, devices: iset<string>, keys: string -> iset<string>) {
    forall d :: d in devices ==> TreeOk(nodes, d, keys(d))
  }

  /** What a device's step adds lies under the device, below a node of its own or, as its folder, below the clients folder. */
  ghost predicate AddsOwn(before: Nodes, after: Nodes, device: string) {
    && (forall id :: id in before && !Under(id, device) ==> id in after && after[id] == before[id])
    && Extends(before, after)
    && (forall id :: id in after && id !in before ==>
          Under(id, device) && (Under(after[id].parent, device) || (after[id].parent == CLIENTS && after[id].name == device)))
  }

  lemma StartAddsOwn(nodes: Nodes, keys: iset<string>, device: string)
    requires TreeOk(nodes, device, keys)
    ensures var after := GrownAt(nodes, device, FolderPlace);
            TreeOk(after, device, keys) && AddsOwn(nodes, after, device)
  {
    GrowOk(nodes, device, keys, FolderPlace);
    PlacesAreUnder(device, FolderPlace);
  }

  lemma PublishAddsOwn(nodes: Nodes, keys: iset<string>, device: string, s: Snapshot)
    requires TreeOk(nodes, device, keys) && s.name in keys
    ensures var after := Publish(nodes, device, s);
            TreeOk(after, device, keys) && OnlyKey(nodes, after, device, s.name) && AddsOwn(nodes, after, device)
  {
    PublishOk(nodes, device, keys, s);
    KeyAddsOwn(nodes, Publish(nodes, device, s), keys, device, s.name);
  }

  lemma KeyAddsOwn(before: Nodes, after: Nodes, keys: iset<string>, device: string, key: string)
    requires OnlyKey(before, after, device, key) && TreeOk(after, device, keys) && key in keys
    ensures AddsOwn(before, after, device)
  {
    forall id | id in after && id !in before ensures Under(id, device) && Under(after[id].parent, device) {
      NewNodeIsOwn(before, after, device, keys, key, id);
    }
    forall id | id in before && !Under(id, device) ensures after[id] == before[id] {
      NotAField(device, key, id);
    }
  }

  lemma NotAField(device: string, key: string, id: NodeId)
    requires !Under(id, device)
    ensures forall f :: id != FieldId(device, key, f)
  {
    forall f ensures id != FieldId(device, key, f) { PlacesAreUnder(device, FieldPlace(key, f)); }
  }

  lemma NewNodeIsOwn(before: Nodes, after: Nodes, device: string, keys: iset<string>, key: string, id: NodeId)
    requires OnlyKey(before, after, device, key) && TreeOk(after, device, keys) && key in keys && id in after && id !in before
    ensures Under(id, device) && Under(after[id].parent, device)
  {
    var p := if id == ObjectId(device, key) then ObjectPlace(key) else
               var f :| id == FieldId(device, key, f); FieldPlace(key, f);
    PlacesAreUnder(device, p);
    assert PlacedAt(after, device, p);
  }

  lemma StepAddsOwn(nodes: Nodes, keys: iset<string>, e: Event)
    requires TreeOk(nodes, e.device, keys) && (e.Publishes? ==> e.snapshot.name in keys)
    ensures TreeOk(TreeStep(nodes, e), e.device, keys) && AddsOwn(nodes, TreeStep(nodes, e), e.device)
  {
    match e
    case Starts(device) => StartAddsOwn(nodes, keys, device);
    case Publishes(device, s) => PublishAddsOwn(nodes, keys, device, s);
  }

  /** A step of an unrelated device leaves a device's places and values alone. */
  lemma OtherDeviceKept(before: Nodes, after: Nodes, other: string, device: string, keys: iset<string>)
    requires TreeOk(before, device, keys) && AddsOwn(before, after, other) && !Related(device, other)
    requires other != CLIENTS_FOLDER_NAME
    ensures TreeOk(after, device, keys)
    ensures forall key, s :: Shows(before, device, key, s) ==> Shows(after, device, key, s)
  {
    forall p ensures !Under(IdAt(device, p), other) && (!p.FolderPlace? ==> !Under(ParentAt(device, p), other)) {
      PlacesAreUnder(device, p);
      if Under(IdAt(device, p), other) { CommonOwner(IdAt(device, p), device, other); }
      if !p.FolderPlace? && Under(ParentAt(device, p), other) { CommonOwner(ParentAt(device, p), device, other); }
    }
    ClientsIsNotUnder(other);
    forall p | InScheme(p, keys) ensures PlacedAt(after, device, p) {
      assert PlacedAt(before, device, p);
      StillPlaced(before, after, other, device, p);
    }
    forall key, s | Shows(before, device, key, s) ensures Shows(after, device, key, s) {
      assert !Under(IdAt(device, ObjectPlace(key)), other);
      forall f ensures FieldId(device, key, f) in after && after[FieldId(device, key, f)] == before[FieldId(device, key, f)] {
        assert !Under(IdAt(device, FieldPlace(key, f)), other);
      }
    }
  }

  lemma ClientsIsNotUnder(device: string)
    requires device != CLIENTS_FOLDER_NAME
    ensures !Under(CLIENTS, device)
  {
    assert (device + ".")[|device|] == '.';
  }

  lemma StillPlaced(before: Nodes, after: Nodes, other: string, device: string, p: Place)
    requires AddsOwn(before, after, other) && PlacedAt(before, device, p) && device != other && device != CLIENTS_FOLDER_NAME
    requires !Under(IdAt(device, p), other) && !Under(ParentAt(device, p), other)
    ensures PlacedAt(after, device, p)
  {
    assert IdAt(device, p) in after ==> IdAt(device, p) in before;
    if !p.FolderPlace? { ObjectsAreNotClients(device, p.key); }
    forall c | IsChild(after, c, ParentAt(device, p), NameAt(device, p)) ensures c == IdAt(device, p) {
      if c in before { assert IsChild(before, c, ParentAt(device, p), NameAt(device, p)); }
    }
  }

  /**
    Whatever the interleaving of starts, restarts and drains of devices whose
    names are apart, every key of every device shows the last snapshot that
    device published under it.
   */
  lemma {:induction false} EveryDeviceShowsItsLast(nodes: Nodes, events: seq<Event>, devices: iset<string>, keys: string -> iset<string>)
    requires Apart(devices) && AllOk(nodes, devices, keys) && EventsIn(events, devices, keys)
    ensures AllOk(TreeAfter(nodes, events), devices, keys)
    ensures forall d, key :: d in devices && key in keys(d) && LastOf(events, d, key).Some? ==>
              Shows(TreeAfter(nodes, events), d, key, LastOf(events, d, key).value)
  {
    if events != [] {
      var init, e := events[..|events| - 1], events[|events| - 1];
      var before, after := TreeAfter(nodes, init), TreeAfter(nodes, events);
      EveryDeviceShowsItsLast(nodes, init, devices, keys);
      StepAddsOwn(before, keys(e.device), e);
      forall d | d in devices && d != e.device
        ensures TreeOk(after, d, keys(d)) && forall key, s :: Shows(before, d, key, s) ==> Shows(after, d, key, s)
      {
        OtherDeviceKept(before, after, e.device, d, keys(d));
      }
      forall d, key | d in devices && key in keys(d) && LastOf(events, d, key).Some?
        ensures Shows(after, d, key, LastOf(events, d, key).value)
      {
        if d == e.device { OwnStepShows(before, keys(d), e, key, LastOf(init, d, key)); }
      }
    }
  }

  lemma OwnStepShows(nodes: Nodes, keys: iset<string>, e: Event, key: string, last: Option<Snapshot>)
    requires TreeOk(nodes, e.device, keys) && key in keys && (e.Publishes? ==> e.snapshot.name in keys)
    requires last.Some? ==> Shows(nodes, e.device, key, last.value)
    ensures e.Publishes? && e.snapshot.name == key ==> Shows(TreeStep(nodes, e), e.device, key, e.snapshot)
    ensures !(e.Publishes? && e.snapshot.name == key) && last.Some? ==> Shows(TreeStep(nodes, e), e.device, key, last.value)
  {
    if e.Publishes? {
      PublishOk(nodes, e.device, keys, e.snapshot);
      if e.snapshot.name != key && last.Some? {
        OtherKeysKept(nodes, TreeStep(nodes, e), e.device, keys, e.snapshot.name, key, last.value);
      }
    }
  }

  /** The server's empty tree will do, for any devices that are apart and keys that do not clash. */
  lemma EmptyTreeForAll(devices: iset<string>, keys: string -> iset<string>)
    requires forall d :: d in devices ==> d != CLIENTS_FOLDER_NAME && ClashFree(keys(d))
    ensures AllOk(EMPTY_TREE, devices, keys)
  {
    forall d | d in devices ensures TreeOk(EMPTY_TREE, d, keys(d)) {
      EmptyTreeIsFresh(d);
      FreshTreeOk(EMPTY_TREE, d, keys(d));
    }
  }

  // ------------------------------------------- clients with caches and a gate

  /** The server's tree and the cache of every client that has its folder; not ok once any call was refused. */
  datatype Shared = Shared(nodes: Nodes, caches: map<string, set<string>>, ok: bool)

  /** A start ensures the folder and empties the cache; a snapshot is sent as PublisherRuns has it, by a client that has its folder. */
  function SharedStep(st: Shared, e: Event): Shared {
    if !st.ok then st
    else match e
      case Starts(d) =>
        if Takes(st.nodes, d, FolderPlace) then Shared(GrownAt(st.nodes, d, FolderPlace), st.caches[d := {}], true)
        else st.(ok := false)
      case Publishes(d, s) =>
        if d !in st.caches then st
        else
          var sent := SendOne(Sending(st.nodes, st.caches[d], true), d, s);
          Shared(sent.nodes, st.caches[d := sent.cache], sent.ok)
  }

  function SharedAfter(nodes: Nodes, events: seq<Event>): Shared {
    if events == [] then Shared(nodes, map[], true)
    else SharedStep(SharedAfter(nodes, events[..|events| - 1]), events[|events| - 1])
  }

  function StartedIn(events: seq<Event>): set<string> {
    if events == [] then {}
    else
      var e := events[|events| - 1];
      StartedIn(events[..|events| - 1]) + if e.Starts? then {e.device} else {}
  }

  /** Nobody publishes before its first start. */
  predicate StartFirst(events: seq<Event>) {
    events == []
    || (StartFirst(events[..|events| - 1])
        && (events[|events| - 1].Publishes? ==> events[|events| - 1].device in StartedIn(events[..|events| - 1])))
  }

  ghost predicate NoEmptyObjects(nodes: Nodes, devices: iset<string>) {
    forall d :: d in devices ==> ObjectId(d, "") !in nodes
  }

  /** A client is where a run of its own would have it: folder there, cached subtrees standing. */
  ghost predicate ClientOk(nodes: Nodes, d: string, cache: set<string>) {
    FolderId(d) in nodes && forall k :: k in cache ==> SubtreeStands(nodes, d, k)
  }

  ghost predicate Healthy(st: Shared, devices: iset<string>) {
    && st.ok && NoEmptyObjects(st.nodes, devices)
    && forall d :: d in st.caches ==> d in devices && ClientOk(st.nodes, d, st.caches[d])
  }

  /** What a device's own client finds of its part survives an unrelated device's step. */
  lemma OtherClientKept(before: Nodes, after: Nodes, other: string, device: string, cache: set<string>)
    requires AddsOwn(before, after, other) && ClientOk(before, device, cache)
    ensures ClientOk(after, device, cache)
  {
    SubtreesStay(before, after, device, cache);
  }

  lemma EmptyObjectStaysOut(before: Nodes, after: Nodes, other: string, device: string)
    requires AddsOwn(before, after, other) && !Related(device, other) && ObjectId(device, "") !in before
    ensures ObjectId(device, "") !in after
  {
    PlacesAreUnder(device, ObjectPlace(""));
    if ObjectId(device, "") in after { CommonOwner(ObjectId(device, ""), device, other); }
  }

  /** The tree step of a device is what its client does: nothing is refused. */
  lemma ClientDoesTheStep(st: Shared, devices: iset<string>, keys: iset<string>, e: Event)
    requires Healthy(st, devices) && e.device in devices && TreeOk(st.nodes, e.device, keys)
    requires e.Publishes? ==> e.device in st.caches && e.snapshot.name in keys && e.snapshot.name != ""
    ensures var next := SharedStep(st, e);
            && next.ok && next.nodes == TreeStep(st.nodes, e)
            && next.caches == st.caches[e.device := if e.Starts? then {} else st.caches[e.device] + {e.snapshot.name}]
            && ClientOk(next.nodes, e.device, next.caches[e.device]) && ObjectId(e.device, "") !in next.nodes
  {
    match e
    case Starts(d) =>
      assert PlacedAt(st.nodes, d, FolderPlace);
      NotTheEmptyObject(d, FolderPlace);
    case Publishes(d, s) =>
      var mine := Sending(st.nodes, st.caches[d], true);
      TreeOkIsLaidOut(st.nodes, d, keys);
      SendOnePublishes(mine, d, keys, s);
      SendOneOk(mine, d, keys, s);
      PublishKeepsPublishable(st.nodes, d, keys, s);
  }

  lemma StepIsHealthy(st: Shared, devices: iset<string>, keys: iset<string>, e: Event)
    requires Apart(devices) && Healthy(st, devices) && e.device in devices && TreeOk(st.nodes, e.device, keys)
    requires e.Publishes? ==> e.device in st.caches && e.snapshot.name in keys && e.snapshot.name != ""
    ensures Healthy(SharedStep(st, e), devices) && SharedStep(st, e).nodes == TreeStep(st.nodes, e)
    ensures SharedStep(st, e).caches.Keys == st.caches.Keys + {e.device}
  {
    var next := SharedStep(st, e);
    ClientDoesTheStep(st, devices, keys, e);
    StepAddsOwn(st.nodes, keys, e);
    forall d | d in devices ensures ObjectId(d, "") !in next.nodes {
      if d != e.device { EmptyObjectStaysOut(st.nodes, next.nodes, e.device, d); }
    }
    forall d | d in next.caches ensures d in devices && ClientOk(next.nodes, d, next.caches[d]) {
      if d != e.device { OtherClientKept(st.nodes, next.nodes, e.device, d, st.caches[d]); }
    }
  }

  /**
    The clients' run is the tree run: from any start on which the devices may
    publish, whatever the interleaving, no call is refused and the tree is that
    of publishing every snapshot in turn.
   */
  lemma {:induction false} NothingIsRefused(nodes: Nodes, events: seq<Event>, devices: iset<string>, keys: string -> iset<string>)
    requires Apart(devices) && AllOk(nodes, devices, keys) && EventsIn(events, devices, keys) && StartFirst(events)
    requires NoEmptyObjects(nodes, devices)
    ensures var st := SharedAfter(nodes, events);
            Healthy(st, devices) && st.nodes == TreeAfter(nodes, events) && st.caches.Keys == StartedIn(events)
  {
    if events != [] {
      var init, e := events[..|events| - 1], events[|events| - 1];
      NothingIsRefused(nodes, init, devices, keys);
      EveryDeviceShowsItsLast(nodes, init, devices, keys);
      StepIsHealthy(SharedAfter(nodes, init), devices, keys(e.device), e);
      assert e.Publishes? ==> StartedIn(init) + {e.device} == StartedIn(init);
    }
  }

  /** So on the server's empty tree every device's keys show what its client sent last. */
  lemma EveryClientShowsItsLast(events: seq<Event>, devices: iset<string>, keys: string -> iset<string>)
    requires Apart(devices) && EventsIn(events, devices, keys) && StartFirst(events)
    requires forall d :: d in devices ==> d != CLIENTS_FOLDER_NAME && ClashFree(keys(d))
    ensures SharedAfter(EMPTY_TREE, events).ok
    ensures forall d :: d in StartedIn(events) ==> FolderReads(SharedAfter(EMPTY_TREE, events).nodes, d)
    ensures forall d, key :: d in devices && key in keys(d) && LastOf(events, d, key).Some? ==>
              ReadsBack(SharedAfter(EMPTY_TREE, events).nodes, d, key, LastOf(events, d, key).value)
  {
    EmptyTreeForAll(devices, keys);
    forall d | d in devices ensures ObjectId(d, "") !in EMPTY_TREE {
      ObjectsAreNotClients(d, "");
    }
    NothingIsRefused(EMPTY_TREE, events, devices, keys);
    EveryDeviceShowsItsLast(EMPTY_TREE, events, devices, keys);
    var after := TreeAfter(EMPTY_TREE, events);
    forall d | d in StartedIn(events) ensures FolderReads(after, d) {
      assert d in SharedAfter(EMPTY_TREE, events).caches;
      FolderReadsBack(after, d, keys(d));
    }
    forall d, key | d in devices && key in keys(d) && LastOf(events, d, key).Some?
      ensures ReadsBack(after, d, key, LastOf(events, d, key).value)
    {
      assert TreeOk(after, d, keys(d));
      ShownReadsBack(after, d, keys(d), key, LastOf(events, d, key).value);
    }
  }
}
