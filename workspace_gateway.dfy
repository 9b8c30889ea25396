/**
 * `WorkspaceGateway`: the socket.io handlers of the workspace namespace. Each
 * handler resolves the caller's session through the registry, updates it,
 * changes which rooms the calling socket is in, and broadcasts to a room. The
 * server is the log of its broadcasts, in order; a socket is its id and the
 * set of rooms it is in.
 */
module WorkspaceRouting {
  import opened Wrappers
  import opened OrderedMaps
  import opened WorkspaceSessions

  /** `UserStatus` */
  datatype UserStatus = Online | Offline

  datatype MoveData = MoveData(x: int, y: int)

  /** `MoveCursorDTO` */
  datatype MoveCursorDto = MoveCursorDto(userId: string, moveData: MoveData)

  /** `LeaveUserDTO` */
  datatype LeaveUserDto = LeaveUserDto(workspaceId: string, userId: string)

  /** A broadcast event with its payload. */
  datatype Event =
    | UserStatusChanged(userId: string, status: UserStatus)
    | UserJoined(user: User)
    | UserLeft(userId: string)
    | CursorMoved(payload: MoveCursorDto)
  {
    /** The event name on the wire. */
    function Name(): string {
      match this
      case UserStatusChanged(_, _) => "user:status"
      case UserJoined(_) => "user:joined"
      case UserLeft(_) => "user:left"
      case CursorMoved(_) => "cursor:moved"
    }
  }

  /** Two events go out under the same name exactly when they are of the same kind. */
  lemma NameTellsKind(a: Event, b: Event)
    ensures a.Name() == b.Name() <==>
              (a.UserStatusChanged? && b.UserStatusChanged?) || (a.UserJoined? && b.UserJoined?) ||
              (a.UserLeft? && b.UserLeft?) || (a.CursorMoved? && b.CursorMoved?)
  {
  }

  /** `server.to(room).emit(event.Name(), payload)` */
  datatype Emission = Emission(room: string, event: Event)

  /** The two broadcasts announcing that a user went away, in order. */
  function DepartureEmissions(d: Departure): (r: seq<Emission>)
    ensures |r| == 2 && r[0].room == d.roomId && r[1].room == d.roomId
    ensures r[0].event.Name() == "user:status" && r[1].event.Name() == "user:left"
    ensures r[0].event == UserStatusChanged(d.userId, Offline) && r[1].event == UserLeft(d.userId)
  {
    [Emission(d.roomId, UserStatusChanged(d.userId, Offline)), Emission(d.roomId, UserLeft(d.userId))]
  }

  /** The two broadcasts announcing that a user arrived, in order. */
  function ArrivalEmissions(j: Joined): (r: seq<Emission>)
    ensures |r| == 2 && r[0].room == j.roomId && r[1].room == j.roomId
    ensures r[0].event.Name() == "user:status" && r[1].event.Name() == "user:joined"
    ensures r[0].event == UserStatusChanged(j.user.id, Online) && r[1].event == UserJoined(j.user)
  {
    [Emission(j.roomId, UserStatusChanged(j.user.id, Online)), Emission(j.roomId, UserJoined(j.user))]
  }

  /** A connected socket: its id and the rooms it is in. */
  class Client {
    const id: string
    var rooms: set<string>

    constructor(id: string)
      ensures this.id == id && rooms == {}
    {
      this.id := id;
      rooms := {};
    }

    /** `client.join(room)` */
    method Join(room: string)
      modifies this
      ensures rooms == old(rooms) + {room}
    {
      rooms := rooms + {room};
    }

    /** `client.leave(room)` */
    method Leave(room: string)
      modifies this
      ensures rooms == old(rooms) - {room}
    {
      rooms := rooms - {room};
    }
  }

  class WorkspaceGateway {
    const workspaceService: WorkspaceService
    /** Everything the server has broadcast, oldest first. */
    var emitted: seq<Emission>

    ghost predicate Valid()
      reads this, workspaceService
    {
      workspaceService.Valid()
    }

    constructor(workspaceService: WorkspaceService)
      requires workspaceService.Valid()
      ensures Valid() && this.workspaceService == workspaceService && emitted == []
    {
      this.workspaceService := workspaceService;
      emitted := [];
    }

    /** `server.to(room).emit(...)` */
    method Emit(room: string, event: Event)
      modifies this
      ensures emitted == old(emitted) + [Emission(room, event)]
    {
      emitted := emitted + [Emission(room, event)];
    }

    /** A socket dropped: its session, if any, is removed and its room told, status first. */
    method HandleDisconnect(client: Client)
      requires Valid()
      modifies this, workspaceService
      ensures Valid()
      ensures workspaceService.userSessions == old(workspaceService.userSessions).Delete(client.id)
      ensures match DepartureOf(old(workspaceService.userSessions), client.id)
              case None => emitted == old(emitted)
              case Some(d) => emitted == old(emitted) + DepartureEmissions(d)
    {
      var result := workspaceService.HandleDisconnect(client.id);
      if result.None? {
        return;
      }
      var roomId, userId := result.value.roomId, result.value.userId;
      Emit(roomId, UserStatusChanged(userId, Offline));
      Emit(roomId, UserLeft(userId));
    }

    /**
     * `user:join`: the session is recorded (replacing any earlier one), the
     * socket enters the room (staying in any room it was in), and the room is
     * told, status first.
     */
    method HandleUserJoin(payload: JoinUserDto, client: Client)
      requires Valid()
      modifies this, workspaceService, client
      ensures Valid()
      ensures workspaceService.userSessions ==
              old(workspaceService.userSessions).Set(client.id,
                UserSession(client.id, payload.workspaceId, JoinedUser(payload)))
      ensures client.rooms == old(client.rooms) + {payload.workspaceId}
      ensures emitted == old(emitted) + ArrivalEmissions(Joined(payload.workspaceId, JoinedUser(payload)))
    {
      var joined := workspaceService.JoinUser(payload, client.id);
      var roomId, user := joined.roomId, joined.user;
      client.Join(roomId);
      Emit(roomId, UserStatusChanged(user.id, Online));
      Emit(roomId, UserJoined(user));
    }

    /**
     * `user:leave`: the room and user come from the socket's session, not
     * from the payload. With a session, it is removed, the socket leaves that
     * room and the room is told as on a disconnect; without one nothing happens.
     */
    method HandleUserLeave(payload: LeaveUserDto, client: Client)
      requires Valid()
      modifies this, workspaceService, client
      ensures Valid()
      ensures workspaceService.userSessions == old(workspaceService.userSessions).Delete(client.id)
      ensures match DepartureOf(old(workspaceService.userSessions), client.id)
              case None => emitted == old(emitted) && client.rooms == old(client.rooms)
              case Some(d) =>
                emitted == old(emitted) + DepartureEmissions(d) && client.rooms == old(client.rooms) - {d.roomId}
    {
      var result := workspaceService.LeaveUser(client.id);
      if result.None? {
        return;
      }
      var roomId, userId := result.value.roomId, result.value.userId;
      client.Leave(roomId);
      Emit(roomId, UserStatusChanged(userId, Offline));
      Emit(roomId, UserLeft(userId));
    }

    /**
     * `cursor:move`: forwarded unchanged to the sender's session room; the
     * payload's `userId` is not compared with the session's user. Without a
     * session nothing is sent.
     */
    method HandleCursorMove(client: Client, payload: MoveCursorDto)
      requires Valid()
      modifies this
      ensures Valid()
      ensures match workspaceService.GetUserBySocketId(client.id)
              case None => emitted == old(emitted)
              case Some(j) => emitted == old(emitted) + [Emission(j.roomId, CursorMoved(payload))]
    {
      var userInfo := workspaceService.GetUserBySocketId(client.id);
      if userInfo.None? {
        return;
      }
      var roomId := userInfo.value.roomId;
      Emit(roomId, CursorMoved(payload));
    }
  }

  /**
   * A socket that joins one workspace and then another without leaving stays
   * subscribed to the first room, while its session, and so the room its
   * disconnect is announced to, is the second.
   */
  method RejoinKeepsOldRoom(first: JoinUserDto, second: JoinUserDto)
    returns (rooms: set<string>, announced: seq<Emission>)
    requires first.workspaceId != second.workspaceId
    ensures rooms == {first.workspaceId, second.workspaceId}
    ensures announced == DepartureEmissions(Departure(second.workspaceId, second.user.id))
  {
    var service := new WorkspaceService();
    var gateway := new WorkspaceGateway(service);
    var client := new Client("s1");
    gateway.HandleUserJoin(first, client);
    gateway.HandleUserJoin(second, client);
    rooms := client.rooms;
    var before := gateway.emitted;
    gateway.HandleDisconnect(client);
    announced := gateway.emitted[|before|..];
  }
}
