/**
  The earlier router of socket.io/server.js. Its join, leave, disconnect,
  admin and support handlers are the ones of server-enhanced.js; its
  `chat-message` payload has no `room` key, and it registers no handler for
  `broadcast-message`, `admin-announcement` or `send-announcement`, so those
  events change nothing and reach nobody.
 */
module BasicRouting {
  import opened Wrappers
  import opened Rooms
  import opened Routing
  import RoutingProps

  /**
    `chat-message` without a `room` key: dropped unless the current room is
    truthy; otherwise sent to every member of the current room, the sender
    included.
   */
  function OnChatMessage(s: Server, id: SocketId, message: string): (t: Transition)
    requires id in s.general.sockets
    ensures t.next == s
    ensures !Truthy(s.general.sockets[id].currentRoom) ==> t.out == []
    ensures Truthy(s.general.sockets[id].currentRoom) ==>
      && |t.out| == 1
      && t.out[0].to == s.general.Members(s.general.sockets[id].currentRoom.value)
      && t.out[0].payload == RoomChat(s.general.sockets[id].username, message, None)
  {
    var a := s.general.sockets[id];
    if !Truthy(a.currentRoom) then Transition(s, [])
    else Transition(s, [Emit(s.general.NspTo(a.currentRoom.value), RoomChat(a.username, message, None))])
  }

  /** One inbound event under server.js. */
  function Step(s: Server, c: Command): (t: Transition)
    ensures !c.ChatMessage? && !c.BroadcastMessage? && !c.AdminAnnouncement? && !c.SendAnnouncement? ==>
      t == Routing.Step(s, c)
    ensures forall sp | sp != c.Origin() :: t.next.Of(sp) == s.Of(sp)
  {
    if !Enabled(s, c) then Transition(s, [])
    else
      match c
      case ChatMessage(id, message) => OnChatMessage(s, id, message)
      case BroadcastMessage(_, _) => Transition(s, [])
      case AdminAnnouncement(_, _) => Transition(s, [])
      case SendAnnouncement(_, _) => Transition(s, [])
      case _ => Routing.Step(s, c)
  }

  /**
    No event under server.js reaches a socket outside the namespace that
    received it: there is no broadcast and no announcement path.
   */
  lemma StepStaysInOrigin(s: Server, c: Command)
    requires s.Valid()
    ensures Recipients(Step(s, c).out) <= s.Of(c.Origin()).Live()
    ensures forall sp | sp != c.Origin() :: Recipients(Step(s, c).out) !! s.Of(sp).Live()
  {
    EmitsStayInOrigin(s, c);
    RoutingProps.RecipientsWithin(Step(s, c).out, s.Of(c.Origin()).Live());
  }

  /** Each single emit of an event goes to live sockets of the namespace that received it. */
  lemma EmitsStayInOrigin(s: Server, c: Command)
    requires s.Valid()
    ensures forall i | 0 <= i < |Step(s, c).out| :: Step(s, c).out[i].to <= s.Of(c.Origin()).Live()
  {
  }

  /** server.js keeps the state invariant of the router. */
  lemma StepPreservesValid(s: Server, c: Command)
    requires s.Valid()
    ensures Step(s, c).next.Valid()
  {
    if Enabled(s, c) && !c.ChatMessage? && !c.BroadcastMessage? && !c.AdminAnnouncement? && !c.SendAnnouncement? {
      RoutingProps.StepPreservesValid(s, c);
    }
  }

  /**
    `chat-message` reaches exactly the members of the truthy current room, the
    sender included, and its payload never carries a room.
   */
  lemma ChatReachesCurrentRoom(s: Server, id: SocketId, message: string)
    requires s.Valid() && id in s.general.sockets
    ensures var out := Step(s, ChatMessage(id, message)).out;
      var cur := s.general.sockets[id].currentRoom;
      && (!Truthy(cur) ==> Recipients(out) == {})
      && (Truthy(cur) ==> Recipients(out) == s.general.Members(cur.value) && id in Recipients(out))
      && (forall e | e in out :: e.payload.room.None?)
  {
  }

  /** The events server.js has no handler for are ignored. */
  lemma UnhandledEventsIgnored(s: Server, id: SocketId, message: string)
    ensures Step(s, BroadcastMessage(id, message)) == Transition(s, [])
    ensures Step(s, AdminAnnouncement(id, message)) == Transition(s, [])
    ensures Step(s, SendAnnouncement(id, message)) == Transition(s, [])
  {
  }
}
