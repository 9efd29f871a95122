/**
  Properties of the server-enhanced.js router: the state invariant is kept by
  every event, deliveries never leave the namespace they belong to, membership
  notices never reach the socket that caused them, and the per-event delivery
  rules stated as set algebra over the pre-state.
 */
module RoutingProps {
  import opened Wrappers
  import opened Rooms
  import opened Routing

  /** The namespace whose sockets an event may reach: /general for `send-announcement`, else its own. */
  function Target(c: Command): Space
  {
    if c.SendAnnouncement? then General else c.Origin()
  }

  lemma InitialValid()
    ensures Initial.Valid()
  {
  }

  lemma ConnectPreservesValid(s: Server, sp: Space, id: SocketId)
    requires s.Valid()
    requires id !in s.general.sockets && id !in s.admin.sockets && id !in s.support.sockets
    ensures OnConnect(s, sp, id).next.Valid()
  {
    var n := OnConnect(s, sp, id).next;
    assert TracksCurrentRoom(n.general) && TracksAdminName(n.admin) && TracksAgentName(n.support);
  }

  lemma JoinRoomPreservesValid(s: Server, id: SocketId, roomName: RoomName, username: string)
    requires s.Valid() && id in s.general.sockets
    ensures OnJoinRoom(s, id, roomName, username).next.Valid()
  {
    assert TracksCurrentRoom(OnJoinRoom(s, id, roomName, username).next.general);
  }

  lemma LeaveRoomPreservesValid(s: Server, id: SocketId)
    requires s.Valid() && id in s.general.sockets
    ensures OnLeaveRoom(s, id).next.Valid()
  {
    assert TracksCurrentRoom(OnLeaveRoom(s, id).next.general);
  }

  lemma AdminJoinPreservesValid(s: Server, id: SocketId, adminName: string)
    requires s.Valid() && id in s.admin.sockets
    ensures OnAdminJoin(s, id, adminName).next.Valid()
  {
    assert TracksAdminName(OnAdminJoin(s, id, adminName).next.admin);
  }

  lemma SupportJoinPreservesValid(s: Server, id: SocketId, agentName: string)
    requires s.Valid() && id in s.support.sockets
    ensures OnSupportJoin(s, id, agentName).next.Valid()
  {
    assert TracksAgentName(OnSupportJoin(s, id, agentName).next.support);
  }

  lemma DisconnectPreservesValid(s: Server, sp: Space, id: SocketId)
    requires s.Valid() && id in s.Of(sp).sockets
    ensures Step(s, Disconnect(sp, id)).next.Valid()
  {
    var n := Step(s, Disconnect(sp, id)).next;
    assert TracksCurrentRoom(n.general) && TracksAdminName(n.admin) && TracksAgentName(n.support);
  }

  /** Every event keeps the state invariant. */
  lemma {:induction false} StepPreservesValid(s: Server, c: Command)
    requires s.Valid()
    ensures Step(s, c).next.Valid()
  {
    if Enabled(s, c) {
      match c
      case Connect(sp, id) => ConnectPreservesValid(s, sp, id);
      case JoinRoom(id, roomName, username) => JoinRoomPreservesValid(s, id, roomName, username);
      case LeaveRoom(id) => LeaveRoomPreservesValid(s, id);
      case AdminJoin(id, adminName) => AdminJoinPreservesValid(s, id, adminName);
      case SupportJoin(id, agentName) => SupportJoinPreservesValid(s, id, agentName);
      case Disconnect(sp, id) => DisconnectPreservesValid(s, sp, id);
      case _ =>
    }
  }

  /** Every run of events from a valid state ends in a valid state. */
  lemma {:induction false} RunPreservesValid(s: Server, cs: seq<Command>)
    requires s.Valid()
    ensures Run(s, cs).next.Valid()
    decreases |cs|
  {
    if |cs| > 0 {
      StepPreservesValid(s, cs[0]);
      RunPreservesValid(Step(s, cs[0]).next, cs[1..]);
    }
  }

  /**
    Namespace isolation: every socket an event reaches is live in the event's
    target namespace, hence in no other one.
   */
  lemma StepStaysInNamespace(s: Server, c: Command)
    requires s.Valid()
    ensures Recipients(Step(s, c).out) <= s.Of(Target(c)).Live()
    ensures forall sp | sp != Target(c) :: Recipients(Step(s, c).out) !! s.Of(sp).Live()
  {
    EmitsStayInTarget(s, c);
    RecipientsWithin(Step(s, c).out, s.Of(Target(c)).Live());
  }

  /** Each single emit of an event goes to live sockets of the event's target namespace. */
  lemma EmitsStayInTarget(s: Server, c: Command)
    requires s.Valid()
    ensures forall i | 0 <= i < |Step(s, c).out| :: Step(s, c).out[i].to <= s.Of(Target(c)).Live()
  {
  }

  /** A bound on the recipients of every emit bounds the recipients of them all. */
  lemma RecipientsWithin(out: seq<Emit>, bound: set<SocketId>)
    requires forall i | 0 <= i < |out| :: out[i].to <= bound
    ensures Recipients(out) <= bound
  {
    forall id | id in Recipients(out)
      ensures id in bound
    {
      var i :| 0 <= i < |out| && id in out[i].to;
    }
  }

  /** Join and departure notices never reach the socket whose event caused them. */
  lemma NoticesSkipActor(s: Server, c: Command)
    ensures forall e | e in Step(s, c).out && e.payload.IsNotice() :: c.id !in e.to
  {
  }

  /**
    `chat-message` reaches exactly the members of the sender's current room (the
    sender among them) when that room is truthy, tagged with it, and nobody
    otherwise; in particular nobody outside that room or outside /general.
   */
  lemma ChatReachesCurrentRoom(s: Server, id: SocketId, message: string)
    requires s.Valid() && id in s.general.sockets
    ensures var t := Step(s, ChatMessage(id, message));
      var cur := s.general.sockets[id].currentRoom;
      && t.next == s
      && (!Truthy(cur) ==> Recipients(t.out) == {})
      && (Truthy(cur) ==>
            && Recipients(t.out) == s.general.Members(cur.value)
            && id in Recipients(t.out)
            && (forall e | e in t.out :: e.payload.room == cur))
      && Recipients(t.out) !! s.admin.Live()
      && Recipients(t.out) !! s.support.Live()
  {
  }

  /** `broadcast-message` needs no room: it reaches all of /general and nothing else. */
  lemma BroadcastReachesNamespace(s: Server, id: SocketId, message: string)
    requires s.Valid() && id in s.general.sockets
    ensures var out := Step(s, BroadcastMessage(id, message)).out;
      && Recipients(out) == s.general.Live()
      && Recipients(out) !! s.admin.Live()
      && Recipients(out) !! s.support.Live()
  {
  }

  /**
    `admin-announcement` from /general reaches every /general socket exactly
    when the sender's user name is `Admin1` or `Admin2`, and nobody otherwise.
   */
  lemma AnnouncementIsGated(s: Server, id: SocketId, message: string)
    requires s.Valid() && id in s.general.sockets
    ensures var out := Step(s, AdminAnnouncement(id, message)).out;
      var name := s.general.sockets[id].username;
      && (name == Some("Admin1") || name == Some("Admin2") ==> Recipients(out) == s.general.Live())
      && (name != Some("Admin1") && name != Some("Admin2") ==> out == [])
      && Recipients(out) !! s.admin.Live()
      && Recipients(out) !! s.support.Live()
  {
  }

  /** `send-announcement` from /admin: all of /general, whatever the sender did before; no admin or support socket. */
  lemma SendAnnouncementReachesGeneral(s: Server, id: SocketId, message: string)
    requires s.Valid() && id in s.admin.sockets
    ensures var out := Step(s, SendAnnouncement(id, message)).out;
      && Recipients(out) == s.general.Live()
      && Recipients(out) !! s.admin.Live()
      && Recipients(out) !! s.support.Live()
  {
  }

  /**
    `admin-message` reaches the admin room's members only; a sender that never
    joined is not among them and gets nothing back.
   */
  lemma AdminMessageReachesRoom(s: Server, id: SocketId, message: string)
    requires s.Valid() && id in s.admin.sockets
    ensures var out := Step(s, AdminMessage(id, message)).out;
      && Recipients(out) == s.admin.Members(AdminRoom)
      && (s.admin.sockets[id].adminName.None? ==> id !in Recipients(out))
      && Recipients(out) !! s.general.Live()
      && Recipients(out) !! s.support.Live()
  {
  }

  /**
    `support-message` reaches the support room's members only; a sender that
    never joined is not among them and gets nothing back.
   */
  lemma SupportMessageReachesRoom(s: Server, id: SocketId, message: string)
    requires s.Valid() && id in s.support.sockets
    ensures var out := Step(s, SupportMessage(id, message)).out;
      && Recipients(out) == s.support.Members(SupportRoom)
      && (s.support.sockets[id].agentName.None? ==> id !in Recipients(out))
      && Recipients(out) !! s.general.Live()
      && Recipients(out) !! s.admin.Live()
  {
  }

  /**
    The room whose other members hear about a socket's departure: the current
    room in /general, the fixed room elsewhere, and none when the property the
    handler tests is falsy.
   */
  function NoticeRoom(sp: Space, a: Attrs): Option<RoomName>
  {
    match sp
    case General => if Truthy(a.currentRoom) then a.currentRoom else None
    case Admin => if Truthy(a.adminName) then Some(AdminRoom) else None
    case Support => if Truthy(a.agentName) then Some(SupportRoom) else None
  }

  /**
    `disconnect`: a departure notice goes out only when the socket had joined
    (truthy current room, admin name or agent name), and only to the other
    members of that one room; afterwards the socket is in no room.
   */
  lemma DisconnectNotices(s: Server, sp: Space, id: SocketId)
    requires s.Valid() && id in s.Of(sp).sockets
    ensures var t := Step(s, Disconnect(sp, id));
      var room := NoticeRoom(sp, s.Of(sp).sockets[id]);
      && (room.None? ==> Recipients(t.out) == {})
      && (room.Some? ==> Recipients(t.out) == s.Of(sp).Members(room.value) - {id})
      && id !in t.next.Of(sp).Live()
      && (forall r :: id !in t.next.Of(sp).Members(r))
  {
  }

  /** A socket disconnects once: a repeated `disconnect` reaches no handler and sends no second notice. */
  lemma DisconnectTwiceIsQuiet(s: Server, sp: Space, id: SocketId)
    requires s.Valid() && id in s.Of(sp).sockets
    ensures var once := Step(s, Disconnect(sp, id)).next;
      Step(once, Disconnect(sp, id)) == Transition(once, [])
  {
  }

  /**
    `join-room` never leaves the previous room: after joining `r1` and then `r2`
    the socket is a member of both, and only `r2` is its current room.
   */
  lemma JoinKeepsEarlierRooms(s: Server, id: SocketId, r1: RoomName, r2: RoomName, u1: string, u2: string)
    requires id in s.general.sockets
    ensures var g := Run(s, [JoinRoom(id, r1, u1), JoinRoom(id, r2, u2)]).next.general;
      && id in g.Members(r1)
      && id in g.Members(r2)
      && id in g.sockets
      && g.sockets[id].currentRoom == Some(r2)
      && g.sockets[id].username == Some(u2)
  {
    var t1 := Step(s, JoinRoom(id, r1, u1));
    var t2 := Step(t1.next, JoinRoom(id, r2, u2));
    assert Run(t1.next, [JoinRoom(id, r2, u2)]).next == t2.next;
  }

  /**
    `leave-room` after two joins leaves only the later room: the socket stays a
    member of the first one and keeps receiving its chat messages.
   */
  lemma LeaveAfterSwitchKeepsFirstRoom(s: Server, id: SocketId, r1: RoomName, r2: RoomName, u: string)
    requires id in s.general.sockets && r1 != r2 && r2 != ""
    ensures var g := Run(s, [JoinRoom(id, r1, u), JoinRoom(id, r2, u), LeaveRoom(id)]).next.general;
      && id in g.Members(r1)
      && id !in g.Members(r2)
      && id in g.sockets
      && g.sockets[id].currentRoom == None
  {
    var t1 := Step(s, JoinRoom(id, r1, u));
    var t2 := Step(t1.next, JoinRoom(id, r2, u));
    var t3 := Step(t2.next, LeaveRoom(id));
    assert Run(t2.next, [LeaveRoom(id)]).next == t3.next;
    assert Run(t1.next, [JoinRoom(id, r2, u), LeaveRoom(id)]).next == t3.next;
  }

  /**
    A user who switched rooms without leaving still receives the chat of the
    room it joined first: another member's message there reaches it, tagged
    with that first room, while its own current room is the new one.
   */
  lemma SwitchedUserStillHearsOldRoom(s: Server, a: SocketId, b: SocketId, r1: RoomName, r2: RoomName, u: string, m: string)
    requires a in s.general.sockets && b in s.general.sockets && a != b
    requires a in s.general.Members(r1)
    requires s.general.sockets[b].currentRoom == Some(r1) && r1 != ""
    ensures var switched := Step(s, JoinRoom(a, r2, u)).next;
      && a in switched.general.sockets
      && switched.general.sockets[a].currentRoom == Some(r2)
      && Step(switched, ChatMessage(b, m)).out
        == [Emit(switched.general.Members(r1), RoomChat(s.general.sockets[b].username, m, Some(r1)))]
      && a in switched.general.Members(r1)
  {
  }
}
