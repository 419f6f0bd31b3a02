/**
  The server-side gate: session attributes set by activation, and the
  decisions on AddNodes and AddReferences that depend on them.
 */
module AccessControl {
  import opened Words
  import opened OpcUaLayout

  datatype ClientAttributes = ClientAttributes(deviceName: string, readWrite: bool, canBrowse: bool, folder: NodeId)

  /** What operator[] inserts for an unknown session. */
  const DEFAULT_ATTRIBUTES := ClientAttributes("", false, false, NULL_ID)
  const REJECTED := ClientAttributes("Unsupported Device", false, false, NULL_ID)

  type Sessions = map<NodeId, ClientAttributes>

  datatype Token = Undecoded | PolicyMismatch | Certificate(device: Option<string>)

  datatype StatusCode = Good | IdentityTokenInvalid | IdentityTokenRejected | CertificateUntrusted

  datatype Event =
    | Activate(session: NodeId, token: Token)
    | QueryRights(session: NodeId)
    | AddNode(session: NodeId, parent: NodeId, requested: NodeId)

  // ------------------------------------------------------------ decisions

  function Activated(m: Sessions, session: NodeId, token: Token): Sessions {
    if token.Certificate? && token.device.Some?
    then m[session := ClientAttributes(token.device.value, true, true, NULL_ID)]
    else m[session := REJECTED]
  }

  function Queried(m: Sessions, session: NodeId): Sessions {
    if session in m then m else m[session := DEFAULT_ATTRIBUTES]
  }

  predicate Admits(clients: NodeId, a: ClientAttributes, parent: NodeId, requested: NodeId) {
    a.readWrite &&
    if parent == clients then BelongsTo(requested, a.deviceName)
    else (parent == a.folder || BelongsTo(parent, a.deviceName)) && BelongsTo(requested, a.deviceName)
  }

  /** Case 1 remembers the folder it admits. */
  function AfterAdd(clients: NodeId, m: Sessions, session: NodeId, parent: NodeId, requested: NodeId): Sessions {
    if session in m && Admits(clients, m[session], parent, requested) && parent == clients
    then m[session := m[session].(folder := requested)]
    else m
  }

  function Step(clients: NodeId, m: Sessions, e: Event): Sessions {
    match e
    case Activate(session, token) => Activated(m, session, token)
    case QueryRights(session) => Queried(m, session)
    case AddNode(session, parent, requested) => AfterAdd(clients, m, session, parent, requested)
  }

  class AccessControl {
    const clients: NodeId
    var sessions: Sessions

    constructor (clients: NodeId)
      ensures this.clients == clients && sessions == map[]
    {
      this.clients := clients;
      sessions := map[];
    }

    method RejectSession(session: NodeId, code: StatusCode) returns (status: StatusCode)
      modifies this
      ensures sessions == old(sessions)[session := REJECTED] && status == code
    {
      sessions := sessions[session := REJECTED];
      status := code;
    }

    method ActivateSession(session: NodeId, token: Token) returns (status: StatusCode)
      modifies this
      ensures sessions == Activated(old(sessions), session, token)
      ensures status == match token
        case Undecoded => IdentityTokenInvalid
        case PolicyMismatch => IdentityTokenRejected
        case Certificate(device) => if device.Some? then Good else CertificateUntrusted
    {
      if token.Undecoded? {
        status := RejectSession(session, IdentityTokenInvalid);
        return;
      }
      if token.PolicyMismatch? {
        status := RejectSession(session, IdentityTokenRejected);
        return;
      }
      if token.device.None? {
        status := RejectSession(session, CertificateUntrusted);
        return;
      }
      sessions := sessions[session := ClientAttributes(token.device.value, true, true, NULL_ID)];
      status := Good;
    }

    method GetUserAccessLevel(session: NodeId) returns (readWrite: bool)
      modifies this
      ensures sessions == Queried(old(sessions), session) && readWrite == sessions[session].readWrite
    {
      if session !in sessions {
        sessions := sessions[session := DEFAULT_ATTRIBUTES];
      }
      readWrite := sessions[session].readWrite;
    }

    method AllowAddNode(session: NodeId, parent: NodeId, requested: NodeId) returns (ok: bool)
      modifies this
      ensures ok <==> session in old(sessions) && Admits(clients, old(sessions)[session], parent, requested)
      ensures sessions == AfterAdd(clients, old(sessions), session, parent, requested)
    {
      if session !in sessions { return false; }
      var attrs := sessions[session];
      if !attrs.readWrite { return false; }
      if parent == clients {
        if !BelongsTo(requested, attrs.deviceName) { return false; }
        sessions := sessions[session := attrs.(folder := requested)];
        return true;
      }
      if parent == attrs.folder || BelongsTo(parent, attrs.deviceName) {
        return BelongsTo(requested, attrs.deviceName);
      }
      return false;
    }

    method AllowAddReference(session: NodeId, source: NodeId, target: NodeId, hasTypeDefinition: bool) returns (ok: bool)
      ensures ok <==> session in sessions && AdmitsReference(clients, sessions[session], source, target, hasTypeDefinition)
    {
      if session !in sessions { return false; }
      var attrs := sessions[session];
      if !attrs.readWrite { return false; }
      var sourceOk := source == attrs.folder || BelongsTo(source, attrs.deviceName);
      if hasTypeDefinition { return sourceOk && target.ns == 0; }
      if !sourceOk { return false; }
      if target == clients || target == attrs.folder || BelongsTo(target, attrs.deviceName) { return true; }
      if target.ns == 0 { return true; }
      return false;
    }
  }

  // -------------------------------------------------- every reachable state

  function Run(clients: NodeId, events: seq<Event>): Sessions {
    if events == [] then map[] else Step(clients, Run(clients, events[..|events| - 1]), events[|events| - 1])
  }

  /** The device a session is activated for: the last activation decides, and a rejected one leaves none. */
  function ActiveDevice(events: seq<Event>, session: NodeId): Option<string> {
    if events == [] then None
    else
      var e := events[|events| - 1];
      if e.Activate? && e.session == session then
        if e.token.Certificate? then e.token.device else None
      else ActiveDevice(events[..|events| - 1], session)
  }

  /** Whether case 1 has admitted a folder since the session's last activation. */
  function FolderMade(clients: NodeId, events: seq<Event>, session: NodeId): bool {
    if events == [] then false
    else
      var init, e := events[..|events| - 1], events[|events| - 1];
      match e
      case Activate(s, _) => s != session && FolderMade(clients, init, session)
      case QueryRights(_) => FolderMade(clients, init, session)
      case AddNode(s, parent, requested) =>
        || FolderMade(clients, init, session)
        || (s == session && parent == clients && ActiveDevice(init, s).Some? && BelongsTo(requested, ActiveDevice(init, s).value))
  }

  /** In every reachable state: write access means an accepted activation, and the folder is null or owned. */
  ghost predicate Sound(clients: NodeId, events: seq<Event>, m: Sessions, session: NodeId) {
    && (ActiveDevice(events, session).Some? || FolderMade(clients, events, session) ==> session in m)
    && (session in m ==>
          var a := m[session];
          && (a.readWrite <==> ActiveDevice(events, session).Some?) && (a.canBrowse <==> a.readWrite)
          && (a.readWrite ==> a.deviceName == ActiveDevice(events, session).value)
          && (a.folder != NULL_ID <==> FolderMade(clients, events, session))
          && (a.folder == NULL_ID || (a.readWrite && BelongsTo(a.folder, a.deviceName))))
  }

  lemma {:induction false} EveryStateIsSound(clients: NodeId, events: seq<Event>, session: NodeId)
    ensures Sound(clients, events, Run(clients, events), session)
  {
    if events != [] {
      EveryStateIsSound(clients, events[..|events| - 1], session);
    }
  }

  /**
    Admission after any sequence of activations, rejections, re-activations,
    queries and additions, exactly: an accepted activation, a requested id of
    that device, and as parent the clients folder, a node of the device, or -
    as long as no folder was admitted since that activation - the null id.
   */
  lemma AdmissionExact(clients: NodeId, events: seq<Event>, session: NodeId, parent: NodeId, requested: NodeId)
    ensures var m := Run(clients, events);
            (session in m && Admits(clients, m[session], parent, requested))
            <==>
            && ActiveDevice(events, session).Some?
            && BelongsTo(requested, ActiveDevice(events, session).value)
            && (parent == clients || BelongsTo(parent, ActiveDevice(events, session).value)
                || (parent == NULL_ID && !FolderMade(clients, events, session)))
  {
    EveryStateIsSound(clients, events, session);
  }

  /** Sessions activated for unrelated devices are never given the same id, in whichever states they ask. */
  lemma SubtreesAreIsolated(clients: NodeId, requested: NodeId,
                            events1: seq<Event>, s1: NodeId, p1: NodeId, events2: seq<Event>, s2: NodeId, p2: NodeId)
    requires s1 in Run(clients, events1) && Admits(clients, Run(clients, events1)[s1], p1, requested)
    requires s2 in Run(clients, events2) && Admits(clients, Run(clients, events2)[s2], p2, requested)
    ensures ActiveDevice(events1, s1).Some? && ActiveDevice(events2, s2).Some?
    ensures Related(ActiveDevice(events1, s1).value, ActiveDevice(events2, s2).value)
  {
    AdmissionExact(clients, events1, s1, p1, requested);
    AdmissionExact(clients, events2, s2, p2, requested);
    CommonOwner(requested, ActiveDevice(events1, s1).value, ActiveDevice(events2, s2).value);
  }

  predicate AdmitsReference(clients: NodeId, a: ClientAttributes, source: NodeId, target: NodeId, hasTypeDefinition: bool) {
    && a.readWrite && (source == a.folder || BelongsTo(source, a.deviceName))
    && (target.ns == 0
        || (!hasTypeDefinition && (target == clients || target == a.folder || BelongsTo(target, a.deviceName))))
  }

  /**
    References after any events, exactly: an accepted activation; a source of
    the device, or null as long as no folder was admitted; and a target in
    namespace 0 or, unless it is a type definition, the clients folder or a
    node of the device.
   */
  lemma ReferenceExact(clients: NodeId, events: seq<Event>, session: NodeId, source: NodeId, target: NodeId, hasTypeDefinition: bool)
    ensures var m := Run(clients, events);
            (session in m && AdmitsReference(clients, m[session], source, target, hasTypeDefinition))
            <==>
            && ActiveDevice(events, session).Some?
            && (BelongsTo(source, ActiveDevice(events, session).value) || (source == NULL_ID && !FolderMade(clients, events, session)))
            && (target.ns == 0
                || (!hasTypeDefinition && (target == clients || BelongsTo(target, ActiveDevice(events, session).value))))
  {
    EveryStateIsSound(clients, events, session);
    RightsAreTheFolders(clients, events, session);
  }

  /** A session that has made its folder is of the folder's device. */
  lemma RightsAreTheFolders(clients: NodeId, events: seq<Event>, session: NodeId)
    ensures FolderMade(clients, events, session) ==> ActiveDevice(events, session).Some?
  {
    EveryStateIsSound(clients, events, session);
  }

  /** An admitted reference starts at the session's own nodes (or at null before case 1) and never ends in another device's. */
  lemma ReferencesStayInside(clients: NodeId, events: seq<Event>, session: NodeId, source: NodeId, target: NodeId,
                             hasTypeDefinition: bool, other: string)
    requires var m := Run(clients, events);
             session in m && AdmitsReference(clients, m[session], source, target, hasTypeDefinition)
    requires target.ns != 0 && target != clients && BelongsTo(target, other)
    ensures ActiveDevice(events, session).Some?
    ensures BelongsTo(source, ActiveDevice(events, session).value)
            || (source == NULL_ID && !FolderMade(clients, events, session))
    ensures Related(ActiveDevice(events, session).value, other)
  {
    EveryStateIsSound(clients, events, session);
    CommonOwner(target, ActiveDevice(events, session).value, other);
  }
}
