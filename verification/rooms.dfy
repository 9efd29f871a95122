/**
  The part of a socket.io namespace the handlers rely on: the set of live sockets
  with the properties the handlers store on them, and the room index. The
  library's delivery primitives are abstracted as the recipient sets they reach.
 */
module Rooms {
  import opened Wrappers

  type SocketId = string
  type RoomName = string

  /**
    The properties a handler stores on a socket object. Each namespace uses only
    its own: `username`/`currentRoom` in /general, `adminName` in /admin and
    `agentName` in /support. `None` is `undefined` (never set) or `null`.
   */
  datatype Attrs = Attrs(
    username: Option<string>,
    currentRoom: Option<RoomName>,
    adminName: Option<string>,
    agentName: Option<string>)

  /** The properties of a socket that has just connected. */
  const FreshAttrs := Attrs(None, None, None, None)

  /** One namespace: its live sockets and its room index (room name to member ids). */
  datatype Nsp = Nsp(sockets: map<SocketId, Attrs>, rooms: map<RoomName, set<SocketId>>)
  {
    function Live(): set<SocketId>
    {
      sockets.Keys
    }

    /** The members of a room; a room nobody has joined has no members. */
    function Members(r: RoomName): set<SocketId>
    {
      if r in rooms then rooms[r] else {}
    }

    /** No room lists a socket that is not live in this namespace. */
    ghost predicate Consistent()
    {
      forall r | r in rooms :: rooms[r] <= sockets.Keys
    }

    /** A newly accepted connection: live, with no properties and in no room. */
    function Connect(id: SocketId): (n: Nsp)
      ensures n.Live() == Live() + {id}
      ensures n.sockets[id] == FreshAttrs
      ensures forall other | other in sockets && other != id :: n.sockets[other] == sockets[other]
      ensures forall r :: n.Members(r) == Members(r)
    {
      Nsp(sockets[id := FreshAttrs], rooms)
    }

    /** Stores new properties on a live socket. */
    function Update(id: SocketId, a: Attrs): (n: Nsp)
      requires id in sockets
      ensures n.Live() == Live()
      ensures n.sockets[id] == a
      ensures forall other | other in sockets && other != id :: n.sockets[other] == sockets[other]
      ensures forall r :: n.Members(r) == Members(r)
    {
      Nsp(sockets[id := a], rooms)
    }

    /** `socket.join(r)`: adds one membership and touches no other room. */
    function Join(id: SocketId, r: RoomName): (n: Nsp)
      ensures n.sockets == sockets
      ensures n.Members(r) == Members(r) + {id}
      ensures forall x | x != r :: n.Members(x) == Members(x)
    {
      Nsp(sockets, rooms[r := Members(r) + {id}])
    }

    /** `socket.leave(r)`: removes one membership and touches no other room. */
    function Leave(id: SocketId, r: RoomName): (n: Nsp)
      ensures n.sockets == sockets
      ensures n.Members(r) == Members(r) - {id}
      ensures forall x | x != r :: n.Members(x) == Members(x)
    {
      Nsp(sockets, rooms[r := Members(r) - {id}])
    }

    /**
      What the library does when a socket disconnects, before the handler runs:
      the socket leaves every room and the namespace.
     */
    function Remove(id: SocketId): (n: Nsp)
      ensures n.Live() == Live() - {id}
      ensures forall other | other in n.sockets :: n.sockets[other] == sockets[other]
      ensures forall r :: n.Members(r) == Members(r) - {id}
    {
      Nsp(sockets - {id}, map r | r in rooms :: rooms[r] - {id})
    }

    // The four delivery primitives, as the set of sockets each one reaches.

    /** `socket.to(r).emit(...)`: the room's members except the sender. */
    function SocketTo(sender: SocketId, r: RoomName): (to: set<SocketId>)
      ensures sender !in to
      ensures forall id :: id in to <==> id in Members(r) && id != sender
    {
      Members(r) - {sender}
    }

    /** `namespace.to(r).emit(...)`: every member of the room, the sender included. */
    function NspTo(r: RoomName): (to: set<SocketId>)
      ensures forall id :: id in to <==> r in rooms && id in rooms[r]
      ensures Consistent() ==> to <= Live()
    {
      Members(r)
    }

    /** `namespace.emit(...)`: every live socket of the namespace, whatever its rooms. */
    function NspEmit(): (to: set<SocketId>)
      ensures forall id :: id in to <==> id in sockets
      ensures Consistent() ==> forall r :: NspTo(r) <= to
    {
      Live()
    }
  }

  /** `socket.emit(...)`: the sender alone. */
  function SocketEmit(sender: SocketId): (to: set<SocketId>)
    ensures sender in to
    ensures forall id | id in to :: id == sender
  {
    {sender}
  }

  const EmptyNsp := Nsp(map[], map[])
}
