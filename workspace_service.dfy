/**
 * `WorkspaceService`: the registry of live sessions of the workspace
 * namespace, socket id to `{socketId, roomId, user}`, in first-insertion order.
 * At most one session per socket: joining again replaces it.
 */
module WorkspaceSessions {
  import opened Wrappers
  import opened OrderedMaps

  /** `User` / `JoindedUserDTO`: what the server keeps and broadcasts about a user. */
  datatype User = User(id: string, nickname: string, color: string)

  /**
   * The `user` object of a `user:join` message as the client sends it: the
   * three `User` fields and, from the web client, a `backgroundColor` the DTO
   * does not declare.
   */
  datatype PayloadUser = PayloadUser(id: string, nickname: string, color: string, backgroundColor: Option<string>)

  /** `JoinUserDTO` */
  datatype JoinUserDto = JoinUserDto(workspaceId: string, user: PayloadUser)

  /** `UserSession` */
  datatype UserSession = UserSession(socketId: string, roomId: string, user: User)

  /** `{roomId, user}`, what `joinUser` and `getUserBySocketId` return. */
  datatype Joined = Joined(roomId: string, user: User)

  /** `{roomId, userId}`, what `leaveUser` and `handleDisconnect` return. */
  datatype Departure = Departure(roomId: string, userId: string)

  /** The user `joinUser` records: only the declared fields of the payload's user. */
  function JoinedUser(payload: JoinUserDto): (r: User)
    ensures r.id == payload.user.id && r.nickname == payload.user.nickname && r.color == payload.user.color
  {
    User(payload.user.id, payload.user.nickname, payload.user.color)
  }

  /** What removing a socket's session reports: its room and user id, or null when there is none. */
  function DepartureOf(sessions: OrderedMap<UserSession>, socketId: string): (r: Option<Departure>)
    ensures r.None? <==> !sessions.Has(socketId)
    ensures r.Some? ==> r.value == Departure(sessions.entries[socketId].roomId, sessions.entries[socketId].user.id)
  {
    match sessions.Get(socketId)
    case None => None
    case Some(s) => Some(Departure(s.roomId, s.user.id))
  }

  /** `sessions.filter(s => s.roomId === roomId).map(s => s.user)` */
  function UsersIn(sessions: seq<UserSession>, roomId: string): (r: seq<User>)
    ensures |r| <= |sessions|
    ensures forall u :: u in r <==> exists s :: s in sessions && s.roomId == roomId && s.user == u
  {
    if sessions == [] then []
    else
      var rest := UsersIn(sessions[1..], roomId);
      assert forall s :: s in sessions[1..] ==> s in sessions;
      if sessions[0].roomId == roomId then [sessions[0].user] + rest else rest
  }

  /** Users of earlier sessions come first: the filter keeps session order. */
  lemma {:induction false} UsersInAppend(a: seq<UserSession>, b: seq<UserSession>, roomId: string)
    ensures UsersIn(a + b, roomId) == UsersIn(a, roomId) + UsersIn(b, roomId)
  {
    if a == [] {
      assert a + b == b;
    } else {
      assert (a + b)[0] == a[0] && (a + b)[1..] == a[1..] + b;
      UsersInAppend(a[1..], b, roomId);
    }
  }

  /** One session contributes its user exactly when it is in the room. */
  lemma UsersInOne(s: UserSession, roomId: string)
    ensures UsersIn([s], roomId) == if s.roomId == roomId then [s.user] else []
  {
    assert [s][1..] == [];
  }

  /** A room nobody has joined has no users. */
  lemma {:induction false} UsersInEmptyRoom(sessions: seq<UserSession>, roomId: string)
    requires forall s :: s in sessions ==> s.roomId != roomId
    ensures UsersIn(sessions, roomId) == []
  {
    if sessions != [] {
      assert sessions[0] in sessions;
      assert forall s :: s in sessions[1..] ==> s in sessions;
      UsersInEmptyRoom(sessions[1..], roomId);
    }
  }

  class WorkspaceService {
    var userSessions: OrderedMap<UserSession>

    /** The table is well formed and every session is stored under its own socket id. */
    ghost predicate Valid()
      reads this
    {
      userSessions.Valid() &&
      forall s :: s in userSessions.entries ==> userSessions.entries[s].socketId == s
    }

    constructor()
      ensures Valid() && userSessions == Empty()
    {
      userSessions := Empty();
    }

    /** `handleDisconnect`: removes the socket's session and reports it, or returns null. */
    method HandleDisconnect(socketId: string) returns (r: Option<Departure>)
      requires Valid()
      modifies this
      ensures Valid()
      ensures r == DepartureOf(old(userSessions), socketId)
      ensures userSessions == old(userSessions).Delete(socketId)
    {
      var session := userSessions.Get(socketId);
      if session.None? {
        return None;
      }
      var roomId, user := session.value.roomId, session.value.user;
      userSessions := userSessions.Delete(socketId);
      r := Some(Departure(roomId, user.id));
    }

    /** `joinUser`: records (or replaces) the socket's session and returns its room and user. */
    method JoinUser(payload: JoinUserDto, socketId: string) returns (r: Joined)
      requires Valid()
      modifies this
      ensures Valid()
      ensures r == Joined(payload.workspaceId, JoinedUser(payload))
      ensures userSessions == old(userSessions).Set(socketId, UserSession(socketId, r.roomId, r.user))
    {
      var roomId := payload.workspaceId;
      var user := User(payload.user.id, payload.user.nickname, payload.user.color);
      userSessions := userSessions.Set(socketId, UserSession(socketId, roomId, user));
      r := Joined(roomId, user);
    }

    /** `leaveUser`: the same as `handleDisconnect`. */
    method LeaveUser(socketId: string) returns (r: Option<Departure>)
      requires Valid()
      modifies this
      ensures Valid()
      ensures r == DepartureOf(old(userSessions), socketId)
      ensures userSessions == old(userSessions).Delete(socketId)
    {
      var session := userSessions.Get(socketId);
      if session.None? {
        return None;
      }
      var roomId, user := session.value.roomId, session.value.user;
      userSessions := userSessions.Delete(socketId);
      r := Some(Departure(roomId, user.id));
    }

    /** `getUserBySocketId`: the socket's room and user, or null. */
    function GetUserBySocketId(socketId: string): (r: Option<Joined>)
      reads this
      ensures r.None? <==> !userSessions.Has(socketId)
      ensures r.Some? ==> r.value == Joined(userSessions.entries[socketId].roomId, userSessions.entries[socketId].user)
    {
      match userSessions.Get(socketId)
      case None => None
      case Some(session) => Some(Joined(session.roomId, session.user))
    }

    /** `getUsersByRoomId`: the users of the room's sessions, in session order. */
    function GetUsersByRoomId(roomId: string): (r: seq<User>)
      reads this
      requires Valid()
      ensures forall u :: u in r <==>
                exists s :: s in userSessions.entries && userSessions.entries[s].roomId == roomId
                            && userSessions.entries[s].user == u
      ensures (forall s :: s in userSessions.entries ==> userSessions.entries[s].roomId != roomId) ==> r == []
      ensures r == UsersIn(userSessions.Values(), roomId)
    {
      var sessions := userSessions.Values();
      assert forall s :: s in userSessions.entries ==> userSessions.entries[s] in sessions;
      var users := UsersIn(sessions, roomId);
      assert (forall s :: s in userSessions.entries ==> userSessions.entries[s].roomId != roomId) ==> users == [] by {
        if forall s :: s in userSessions.entries ==> userSessions.entries[s].roomId != roomId {
          UsersInEmptyRoom(sessions, roomId);
        }
      }
      users
    }
  }

  /** `handleDisconnect` and `leaveUser` have the same result and the same effect on equal registries. */
  method DisconnectIsLeave(a: WorkspaceService, b: WorkspaceService, socketId: string)
    returns (viaDisconnect: Option<Departure>, viaLeave: Option<Departure>)
    requires a != b && a.Valid() && b.Valid() && a.userSessions == b.userSessions
    modifies a, b
    ensures viaDisconnect == viaLeave && a.userSessions == b.userSessions
  {
    viaDisconnect := a.HandleDisconnect(socketId);
    viaLeave := b.LeaveUser(socketId);
  }

  /**
   * The last join of a socket wins: after joining two rooms, the socket has
   * one session, in the second room, and leaving reports the second room.
   */
  method RejoinReplacesSession(first: JoinUserDto, second: JoinUserDto)
    returns (afterJoins: Option<Joined>, left: Option<Departure>, afterLeave: Option<Joined>)
    ensures afterJoins == Some(Joined(second.workspaceId, JoinedUser(second)))
    ensures left == Some(Departure(second.workspaceId, second.user.id))
    ensures afterLeave == None
  {
    var service := new WorkspaceService();
    var _ := service.JoinUser(first, "s1");
    var _ := service.JoinUser(second, "s1");
    afterJoins := service.GetUserBySocketId("s1");
    left := service.LeaveUser("s1");
    afterLeave := service.GetUserBySocketId("s1");
  }
}
