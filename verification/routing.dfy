/**
  The namespace/room router of socket.io/server-enhanced.js as a pure state
  machine. Every inbound event is a `Command`; `Step` returns the next server
  state and the emits it causes, each emit being the recipient set of one
  library delivery call together with its payload (timestamps left out).
 */
module Routing {
  import opened Wrappers
  import opened Rooms

  datatype Space = General | Admin | Support

  /** The single room of the /admin namespace. */
  const AdminRoom: RoomName := "admin-room"
  /** The single room of the /support namespace. */
  const SupportRoom: RoomName := "support-room"

  /** The user names allowed to send `admin-announcement` from /general. */
  const Announcers: set<string> := {"Admin1", "Admin2"}

  /** The three namespaces `/general`, `/admin` and `/support`. */
  datatype Server = Server(general: Nsp, admin: Nsp, support: Nsp)
  {
    function Of(sp: Space): Nsp
    {
      match sp
      case General => general
      case Admin => admin
      case Support => support
    }

    function With(sp: Space, n: Nsp): (s: Server)
      ensures s.Of(sp) == n
      ensures forall other | other != sp :: s.Of(other) == Of(other)
    {
      match sp
      case General => this.(general := n)
      case Admin => this.(admin := n)
      case Support => this.(support := n)
    }

    /** Every socket id is live in at most one namespace. */
    ghost predicate Disjoint()
    {
      && general.Live() !! admin.Live()
      && general.Live() !! support.Live()
      && admin.Live() !! support.Live()
    }

    /**
      The state invariant: room indexes name only live sockets, namespaces do not
      share ids, a /general socket with a current room is a member of it and has
      a user name, and an /admin (/support) socket is in the fixed room exactly
      when it has an admin (agent) name.
     */
    ghost predicate Valid()
    {
      && general.Consistent() && admin.Consistent() && support.Consistent()
      && Disjoint()
      && TracksCurrentRoom(general)
      && TracksAdminName(admin)
      && TracksAgentName(support)
    }
  }

  ghost predicate TracksCurrentRoom(n: Nsp)
  {
    forall id | id in n.sockets && n.sockets[id].currentRoom.Some? ::
      id in n.Members(n.sockets[id].currentRoom.value) && n.sockets[id].username.Some?
  }

  ghost predicate TracksAdminName(n: Nsp)
  {
    forall id | id in n.sockets :: id in n.Members(AdminRoom) <==> n.sockets[id].adminName.Some?
  }

  ghost predicate TracksAgentName(n: Nsp)
  {
    forall id | id in n.sockets :: id in n.Members(SupportRoom) <==> n.sockets[id].agentName.Some?
  }

  /** The server before any connection. */
  const Initial := Server(EmptyNsp, EmptyNsp, EmptyNsp)

  /** How a template literal renders a property that may be `undefined`. */
  function Show(v: Option<string>): string
  {
    match v
    case Some(text) => text
    case None => "undefined"
  }

  /**
    Outbound payloads, one constructor per shape. Name fields hold the socket
    property they were read from, so they may be undefined. `RoomChat.room` is
    `None` when the payload has no `room` key at all.
   */
  datatype Payload =
    | UserJoined(username: Option<string>, message: string)
    | RoomJoined(joinedRoom: RoomName, message: string)
    | UserLeft(username: Option<string>, message: string)
    | RoomChat(username: Option<string>, message: string, room: Option<RoomName>)
    | Broadcast(username: Option<string>, message: string)
    | Announcement(username: Option<string>, message: string)
    | AnnouncementFromAdmin(adminName: Option<string>, message: string)
    | AdminConnected(message: string)
    | AdminJoined(adminName: Option<string>, message: string)
    | AdminChat(adminName: Option<string>, message: string)
    | AdminLeft(adminName: Option<string>, message: string)
    | SupportConnected(message: string)
    | AgentJoined(agentName: Option<string>, message: string)
    | SupportChat(agentName: Option<string>, message: string)
    | AgentLeft(agentName: Option<string>, message: string)
  {
    /** The outbound event name the payload is emitted under. */
    function Event(): string
    {
      match this
      case UserJoined(_, _) => "user-joined"
      case RoomJoined(_, _) => "room-joined"
      case UserLeft(_, _) => "user-left"
      case RoomChat(_, _, _) => "chat-message"
      case Broadcast(_, _) => "broadcast-message"
      case Announcement(_, _) => "admin-announcement"
      case AnnouncementFromAdmin(_, _) => "admin-announcement"
      case AdminConnected(_) => "admin-connected"
      case AdminJoined(_, _) => "admin-joined"
      case AdminChat(_, _) => "admin-message"
      case AdminLeft(_, _) => "admin-left"
      case SupportConnected(_) => "support-connected"
      case AgentJoined(_, _) => "agent-joined"
      case SupportChat(_, _) => "support-message"
      case AgentLeft(_, _) => "agent-left"
    }

    /** Membership notices: the join and departure announcements to a room's other members. */
    predicate IsNotice()
    {
      UserJoined? || UserLeft? || AdminJoined? || AdminLeft? || AgentJoined? || AgentLeft?
    }
  }

  /** One library delivery call: the sockets it reaches and what it sends them. */
  datatype Emit = Emit(to: set<SocketId>, payload: Payload)

  datatype Transition = Transition(next: Server, out: seq<Emit>)

  /** Every socket that receives at least one of the emits. */
  function Recipients(out: seq<Emit>): (ids: set<SocketId>)
    ensures forall i | 0 <= i < |out| :: out[i].to <= ids
    ensures forall id | id in ids :: exists i | 0 <= i < |out| :: id in out[i].to
  {
    if |out| == 0 then {} else out[0].to + Recipients(out[1..])
  }

  /** The inbound events. `Connect` and `Disconnect` are the library's `connection` and `disconnect`. */
  datatype Command =
    | Connect(space: Space, id: SocketId)
    | JoinRoom(id: SocketId, roomName: RoomName, username: string)
    | LeaveRoom(id: SocketId)
    | ChatMessage(id: SocketId, message: string)
    | BroadcastMessage(id: SocketId, message: string)
    | AdminAnnouncement(id: SocketId, message: string)
    | AdminJoin(id: SocketId, adminName: string)
    | AdminMessage(id: SocketId, message: string)
    | SendAnnouncement(id: SocketId, message: string)
    | SupportJoin(id: SocketId, agentName: string)
    | SupportMessage(id: SocketId, message: string)
    | Disconnect(space: Space, id: SocketId)
  {
    /** The namespace whose handler receives the event. */
    function Origin(): Space
    {
      match this
      case Connect(sp, _) => sp
      case Disconnect(sp, _) => sp
      case JoinRoom(_, _, _) => General
      case LeaveRoom(_) => General
      case ChatMessage(_, _) => General
      case BroadcastMessage(_, _) => General
      case AdminAnnouncement(_, _) => General
      case AdminJoin(_, _) => Admin
      case AdminMessage(_, _) => Admin
      case SendAnnouncement(_, _) => Admin
      case SupportJoin(_, _) => Support
      case SupportMessage(_, _) => Support
    }
  }

  /**
    Whether the event can reach a handler: a connection carries an id no
    namespace is using, and every other event comes from a live socket of the
    namespace that registered the handler.
   */
  predicate Enabled(s: Server, c: Command)
  {
    if c.Connect? then
      c.id !in s.general.sockets && c.id !in s.admin.sockets && c.id !in s.support.sockets
    else
      c.id in s.Of(c.Origin()).sockets
  }

  /** A new connection to a namespace: no properties, no rooms, nothing sent. */
  function OnConnect(s: Server, sp: Space, id: SocketId): (t: Transition)
    requires id !in s.general.sockets && id !in s.admin.sockets && id !in s.support.sockets
    ensures t.out == []
    ensures t.next.Of(sp).Live() == s.Of(sp).Live() + {id}
    ensures t.next.Of(sp).sockets[id] == FreshAttrs
    ensures forall other | other in s.Of(sp).sockets :: t.next.Of(sp).sockets[other] == s.Of(sp).sockets[other]
    ensures forall r :: t.next.Of(sp).Members(r) == s.Of(sp).Members(r)
    ensures forall other | other != sp :: t.next.Of(other) == s.Of(other)
  {
    Transition(s.With(sp, s.Of(sp).Connect(id)), [])
  }

  // ===== /general =====

  /**
    `join-room`: records the user name and current room and adds one membership.
    Earlier rooms are kept. `user-joined` goes to the room's other members and
    `room-joined` to the joiner, in that order.
   */
  function OnJoinRoom(s: Server, id: SocketId, roomName: RoomName, username: string): (t: Transition)
    requires id in s.general.sockets
    ensures t.next.general.Live() == s.general.Live()
    ensures t.next.general.sockets[id].username == Some(username)
    ensures t.next.general.sockets[id].currentRoom == Some(roomName)
    ensures forall other | other in s.general.sockets && other != id ::
      t.next.general.sockets[other] == s.general.sockets[other]
    ensures forall r :: s.general.Members(r) <= t.next.general.Members(r)
    ensures id in t.next.general.Members(roomName)
    ensures forall r | r != roomName :: t.next.general.Members(r) == s.general.Members(r)
    ensures t.next.general.Members(roomName) == s.general.Members(roomName) + {id}
    ensures t.next.admin == s.admin && t.next.support == s.support
    ensures |t.out| == 2
    ensures t.out[0].payload.Event() == "user-joined" && t.out[0].payload.username == Some(username)
    ensures t.out[0].to == s.general.Members(roomName) - {id}
    ensures t.out[1].payload.Event() == "room-joined" && t.out[1].payload.joinedRoom == roomName
    ensures t.out[1].to == {id}
  {
    var a := s.general.sockets[id];
    var g := s.general.Update(id, a.(username := Some(username), currentRoom := Some(roomName))).Join(id, roomName);
    Transition(
      s.(general := g),
      [ Emit(g.SocketTo(id, roomName), UserJoined(Some(username), username + " joined the room")),
        Emit(SocketEmit(id), RoomJoined(roomName, "You joined " + roomName)) ])
  }

  /**
    `leave-room`: nothing happens unless the current room is truthy. Otherwise
    the room's other members get `user-left` (computed before leaving), the socket
    leaves that one room and its current room becomes null.
   */
  function OnLeaveRoom(s: Server, id: SocketId): (t: Transition)
    requires id in s.general.sockets
    ensures !Truthy(s.general.sockets[id].currentRoom) ==> t == Transition(s, [])
    ensures Truthy(s.general.sockets[id].currentRoom) ==>
      var r := s.general.sockets[id].currentRoom.value;
      && |t.out| == 1
      && t.out[0].payload.Event() == "user-left"
      && t.out[0].to == s.general.Members(r) - {id}
      && id in t.next.general.sockets
      && t.next.general.sockets[id].currentRoom == None
      && t.next.general.sockets[id].username == s.general.sockets[id].username
      && t.next.general.Live() == s.general.Live()
      && id !in t.next.general.Members(r)
      && t.next.general.Members(r) == s.general.Members(r) - {id}
      && (forall x | x != r :: t.next.general.Members(x) == s.general.Members(x))
      && (forall other | other in s.general.sockets && other != id ::
            t.next.general.sockets[other] == s.general.sockets[other])
    ensures t.next.admin == s.admin && t.next.support == s.support
  {
    var a := s.general.sockets[id];
    if !Truthy(a.currentRoom) then Transition(s, [])
    else
      var r := a.currentRoom.value;
      var notice := Emit(s.general.SocketTo(id, r), UserLeft(a.username, Show(a.username) + " left the room"));
      var g := s.general.Leave(id, r).Update(id, a.(currentRoom := None));
      Transition(s.(general := g), [notice])
  }

  /**
    `chat-message` (with a `room` key): dropped unless the current room is
    truthy; otherwise sent to every member of the current room, the sender
    included, tagged with that room.
   */
  function OnChatMessage(s: Server, id: SocketId, message: string): (t: Transition)
    requires id in s.general.sockets
    ensures t.next == s
    ensures !Truthy(s.general.sockets[id].currentRoom) ==> t.out == []
    ensures Truthy(s.general.sockets[id].currentRoom) ==>
      var r := s.general.sockets[id].currentRoom.value;
      && |t.out| == 1
      && t.out[0].to == s.general.Members(r)
      && t.out[0].payload.Event() == "chat-message"
      && t.out[0].payload.room == Some(r)
      && t.out[0].payload.username == s.general.sockets[id].username
      && t.out[0].payload.message == message
  {
    var a := s.general.sockets[id];
    if !Truthy(a.currentRoom) then Transition(s, [])
    else
      var r := a.currentRoom.value;
      Transition(s, [Emit(s.general.NspTo(r), RoomChat(a.username, message, Some(r)))])
  }

  /** `broadcast-message`: no join needed; every /general socket, whatever its rooms. */
  function OnBroadcastMessage(s: Server, id: SocketId, message: string): (t: Transition)
    requires id in s.general.sockets
    ensures t.next == s
    ensures |t.out| == 1 && t.out[0].to == s.general.Live()
    ensures t.out[0].payload == Broadcast(s.general.sockets[id].username, message)
  {
    Transition(s, [Emit(s.general.NspEmit(), Broadcast(s.general.sockets[id].username, message))])
  }

  /**
    `admin-announcement` from /general: sent to every /general socket when the
    sender's user name is exactly one of the allowed names, dropped otherwise.
   */
  function OnAdminAnnouncement(s: Server, id: SocketId, message: string): (t: Transition)
    requires id in s.general.sockets
    ensures t.next == s
    ensures t.out != [] <==> s.general.sockets[id].username in {Some("Admin1"), Some("Admin2")}
    ensures t.out != [] ==>
      |t.out| == 1 && t.out[0].to == s.general.Live() && t.out[0].payload.Event() == "admin-announcement"
  {
    var name := s.general.sockets[id].username;
    if name.Some? && name.value in Announcers then
      Transition(s, [Emit(s.general.NspEmit(), Announcement(name, message))])
    else
      Transition(s, [])
  }

  /**
    `disconnect` in /general. The library has already removed the socket from
    the namespace and all its rooms; the handler notifies the remaining members
    of the current room only, and only when that room is truthy.
   */
  function OnGeneralDisconnect(s: Server, id: SocketId): (t: Transition)
    requires id in s.general.sockets
    ensures t.next.general.Live() == s.general.Live() - {id}
    ensures forall other | other in t.next.general.sockets && other != id :: t.next.general.sockets[other] == s.general.sockets[other]
    ensures forall r :: t.next.general.Members(r) == s.general.Members(r) - {id}
    ensures t.next.admin == s.admin && t.next.support == s.support
    ensures !Truthy(s.general.sockets[id].currentRoom) ==> t.out == []
    ensures Truthy(s.general.sockets[id].currentRoom) ==>
      && |t.out| == 1
      && t.out[0].payload.Event() == "user-left"
      && t.out[0].to == s.general.Members(s.general.sockets[id].currentRoom.value) - {id}
  {
    var a := s.general.sockets[id];
    var g := s.general.Remove(id);
    if Truthy(a.currentRoom) then
      Transition(s.(general := g), [Emit(g.SocketTo(id, a.currentRoom.value), UserLeft(a.username, Show(a.username) + " disconnected"))])
    else
      Transition(s.(general := g), [])
  }

  // ===== /admin =====

  /**
    `admin-join`: records the admin name and joins the admin room; the joiner
    gets `admin-connected` first, then the room's other members get `admin-joined`.
   */
  function OnAdminJoin(s: Server, id: SocketId, adminName: string): (t: Transition)
    requires id in s.admin.sockets
    ensures t.next.admin.Live() == s.admin.Live()
    ensures t.next.admin.sockets[id].adminName == Some(adminName)
    ensures t.next.admin.Members(AdminRoom) == s.admin.Members(AdminRoom) + {id}
    ensures forall r | r != AdminRoom :: t.next.admin.Members(r) == s.admin.Members(r)
    ensures forall other | other in s.admin.sockets && other != id ::
      t.next.admin.sockets[other] == s.admin.sockets[other]
    ensures t.next.general == s.general && t.next.support == s.support
    ensures |t.out| == 2
    ensures t.out[0].to == {id} && t.out[0].payload.Event() == "admin-connected"
    ensures t.out[1].to == s.admin.Members(AdminRoom) - {id} && t.out[1].payload == AdminJoined(Some(adminName), adminName + " joined the admin room")
  {
    var a := s.admin.sockets[id];
    var n := s.admin.Update(id, a.(adminName := Some(adminName))).Join(id, AdminRoom);
    Transition(
      s.(admin := n),
      [ Emit(SocketEmit(id), AdminConnected("Welcome, " + adminName + "! You're now in the admin room.")),
        Emit(n.SocketTo(id, AdminRoom), AdminJoined(Some(adminName), adminName + " joined the admin room")) ])
  }

  /** `admin-message`: no join check; every member of the admin room, and only them. */
  function OnAdminMessage(s: Server, id: SocketId, message: string): (t: Transition)
    requires id in s.admin.sockets
    ensures t.next == s
    ensures |t.out| == 1 && t.out[0].to == s.admin.Members(AdminRoom)
    ensures t.out[0].payload == AdminChat(s.admin.sockets[id].adminName, message)
  {
    Transition(s, [Emit(s.admin.NspTo(AdminRoom), AdminChat(s.admin.sockets[id].adminName, message))])
  }

  /** `send-announcement`: no authorisation or join check; every /general socket. */
  function OnSendAnnouncement(s: Server, id: SocketId, message: string): (t: Transition)
    requires id in s.admin.sockets
    ensures t.next == s
    ensures |t.out| == 1 && t.out[0].to == s.general.Live()
    ensures t.out[0].payload == AnnouncementFromAdmin(s.admin.sockets[id].adminName, message)
    ensures t.out[0].payload.Event() == "admin-announcement"
  {
    Transition(s, [Emit(s.general.NspEmit(), AnnouncementFromAdmin(s.admin.sockets[id].adminName, message))])
  }

  /** `disconnect` in /admin: `admin-left` to the other admin-room members when the admin name is truthy. */
  function OnAdminDisconnect(s: Server, id: SocketId): (t: Transition)
    requires id in s.admin.sockets
    ensures t.next.admin.Live() == s.admin.Live() - {id}
    ensures forall other | other in t.next.admin.sockets && other != id :: t.next.admin.sockets[other] == s.admin.sockets[other]
    ensures forall r :: t.next.admin.Members(r) == s.admin.Members(r) - {id}
    ensures t.next.general == s.general && t.next.support == s.support
    ensures !Truthy(s.admin.sockets[id].adminName) ==> t.out == []
    ensures Truthy(s.admin.sockets[id].adminName) ==>
      && |t.out| == 1
      && t.out[0].payload.Event() == "admin-left"
      && t.out[0].to == s.admin.Members(AdminRoom) - {id}
  {
    var a := s.admin.sockets[id];
    var n := s.admin.Remove(id);
    if Truthy(a.adminName) then
      Transition(s.(admin := n), [Emit(n.SocketTo(id, AdminRoom), AdminLeft(a.adminName, Show(a.adminName) + " left the admin room"))])
    else
      Transition(s.(admin := n), [])
  }

  // ===== /support =====

  /**
    `support-join`: records the agent name and joins the support room; the joiner
    gets `support-connected` first, then the room's other members get `agent-joined`.
   */
  function OnSupportJoin(s: Server, id: SocketId, agentName: string): (t: Transition)
    requires id in s.support.sockets
    ensures t.next.support.Live() == s.support.Live()
    ensures t.next.support.sockets[id].agentName == Some(agentName)
    ensures t.next.support.Members(SupportRoom) == s.support.Members(SupportRoom) + {id}
    ensures forall r | r != SupportRoom :: t.next.support.Members(r) == s.support.Members(r)
    ensures forall other | other in s.support.sockets && other != id ::
      t.next.support.sockets[other] == s.support.sockets[other]
    ensures t.next.general == s.general && t.next.admin == s.admin
    ensures |t.out| == 2
    ensures t.out[0].to == {id} && t.out[0].payload.Event() == "support-connected"
    ensures t.out[1].to == s.support.Members(SupportRoom) - {id} && t.out[1].payload == AgentJoined(Some(agentName), agentName + " joined the support room")
  {
    var a := s.support.sockets[id];
    var n := s.support.Update(id, a.(agentName := Some(agentName))).Join(id, SupportRoom);
    Transition(
      s.(support := n),
      [ Emit(SocketEmit(id), SupportConnected("Welcome, " + agentName + "! You're now in the support room.")),
        Emit(n.SocketTo(id, SupportRoom), AgentJoined(Some(agentName), agentName + " joined the support room")) ])
  }

  /** `support-message`: no join check; every member of the support room, and only them. */
  function OnSupportMessage(s: Server, id: SocketId, message: string): (t: Transition)
    requires id in s.support.sockets
    ensures t.next == s
    ensures |t.out| == 1 && t.out[0].to == s.support.Members(SupportRoom)
    ensures t.out[0].payload == SupportChat(s.support.sockets[id].agentName, message)
  {
    Transition(s, [Emit(s.support.NspTo(SupportRoom), SupportChat(s.support.sockets[id].agentName, message))])
  }

  /** `disconnect` in /support: `agent-left` to the other support-room members when the agent name is truthy. */
  function OnSupportDisconnect(s: Server, id: SocketId): (t: Transition)
    requires id in s.support.sockets
    ensures t.next.support.Live() == s.support.Live() - {id}
    ensures forall other | other in t.next.support.sockets && other != id :: t.next.support.sockets[other] == s.support.sockets[other]
    ensures forall r :: t.next.support.Members(r) == s.support.Members(r) - {id}
    ensures t.next.general == s.general && t.next.admin == s.admin
    ensures !Truthy(s.support.sockets[id].agentName) ==> t.out == []
    ensures Truthy(s.support.sockets[id].agentName) ==>
      && |t.out| == 1
      && t.out[0].payload.Event() == "agent-left"
      && t.out[0].to == s.support.Members(SupportRoom) - {id}
  {
    var a := s.support.sockets[id];
    var n := s.support.Remove(id);
    if Truthy(a.agentName) then
      Transition(s.(support := n), [Emit(n.SocketTo(id, SupportRoom), AgentLeft(a.agentName, Show(a.agentName) + " left the support room"))])
    else
      Transition(s.(support := n), [])
  }

  // ===== dispatch =====

  /**
    One inbound event. An event that cannot reach a handler (see `Enabled`)
    changes nothing and sends nothing.
   */
  function Step(s: Server, c: Command): (t: Transition)
    ensures !Enabled(s, c) ==> t == Transition(s, [])
    ensures forall sp | sp != c.Origin() :: t.next.Of(sp) == s.Of(sp)
  {
    if !Enabled(s, c) then Transition(s, [])
    else if c.Connect? then OnConnect(s, c.space, c.id)
    else
      match c.Origin()
      case General => GeneralEvent(s, c)
      case Admin => AdminEvent(s, c)
      case Support => SupportEvent(s, c)
  }

  /** The handlers registered on a `/` socket. */
  function GeneralEvent(s: Server, c: Command): (t: Transition)
    requires Enabled(s, c) && !c.Connect? && c.Origin() == General
    ensures t.next.admin == s.admin && t.next.support == s.support
  {
    match c
    case JoinRoom(id, roomName, username) => OnJoinRoom(s, id, roomName, username)
    case LeaveRoom(id) => OnLeaveRoom(s, id)
    case ChatMessage(id, message) => OnChatMessage(s, id, message)
    case BroadcastMessage(id, message) => OnBroadcastMessage(s, id, message)
    case AdminAnnouncement(id, message) => OnAdminAnnouncement(s, id, message)
    case Disconnect(_, id) => OnGeneralDisconnect(s, id)
  }

  /** The handlers registered on an `/admin` socket. */
  function AdminEvent(s: Server, c: Command): (t: Transition)
    requires Enabled(s, c) && !c.Connect? && c.Origin() == Admin
    ensures t.next.general == s.general && t.next.support == s.support
  {
    match c
    case AdminJoin(id, adminName) => OnAdminJoin(s, id, adminName)
    case AdminMessage(id, message) => OnAdminMessage(s, id, message)
    case SendAnnouncement(id, message) => OnSendAnnouncement(s, id, message)
    case Disconnect(_, id) => OnAdminDisconnect(s, id)
  }

  /** The handlers registered on a `/support` socket. */
  function SupportEvent(s: Server, c: Command): (t: Transition)
    requires Enabled(s, c) && !c.Connect? && c.Origin() == Support
    ensures t.next.general == s.general && t.next.admin == s.admin
  {
    match c
    case SupportJoin(id, agentName) => OnSupportJoin(s, id, agentName)
    case SupportMessage(id, message) => OnSupportMessage(s, id, message)
    case Disconnect(_, id) => OnSupportDisconnect(s, id)
  }

  /** A sequence of events processed one after the other; the emits are concatenated. */
  function Run(s: Server, cs: seq<Command>): Transition
    decreases |cs|
  {
    if |cs| == 0 then Transition(s, [])
    else
      var first := Step(s, cs[0]);
      var rest := Run(first.next, cs[1..]);
      Transition(rest.next, first.out + rest.out)
  }
}
