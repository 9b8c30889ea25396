/**
 * The remote-cursor record of the workspace page and the three socket
 * handlers that update it: `user:joined` merges the room's users and their
 * cursors in, `user:left` drops one user, `cursor:moved` moves one cursor
 * (creating a placeholder entry for a user not seen yet). Each handler is the
 * updater passed to `setRemoteCursors`: it maps the previous record and the
 * event's payload to the next record.
 */
module RemoteCursors {

  /** One remote user's cursor as drawn on the canvas. */
  datatype RemoteCursor = RemoteCursor(
    userId: string,
    nickname: string,
    color: string,
    backgroundColor: string,
    x: int,
    y: int)

  /** `RemoteCursorState`: user id to cursor. */
  type RemoteCursorState = map<string, RemoteCursor>

  /** An element of `allUsers` in the `user:joined` payload. */
  datatype JoinedUser = JoinedUser(id: string, nickname: string, color: string, backgroundColor: string)

  /** An element of `cursors` in the `user:joined` payload. */
  datatype CursorInfo = CursorInfo(userId: string, workspaceId: string, x: int, y: int)

  datatype UserJoinedPayload = UserJoinedPayload(allUsers: seq<JoinedUser>, cursors: seq<CursorInfo>)

  datatype MoveData = MoveData(x: int, y: int)

  datatype CursorMovedPayload = CursorMovedPayload(userId: string, moveData: MoveData)

  /** Coordinate of a user with neither a cursor in the payload nor an entry of their own. */
  const DefaultCoordinate: int := 100

  /** Nickname of a placeholder entry: "temporary user". */
  const PlaceholderNickname: string := "임시 유저"

  /** Color and background color of a placeholder entry. */
  const PlaceholderColor: string := "#3b82f6"

  /** Every entry is stored under its own user id. */
  predicate KeyedByUser(state: RemoteCursorState) {
    forall k :: k in state ==> state[k].userId == k
  }

  /** `j` is the last position of `cs` holding a cursor of the same user as position `i`. */
  predicate LastCursorOf(cs: seq<CursorInfo>, i: int) {
    0 <= i < |cs| && forall j :: i < j < |cs| ==> cs[j].userId != cs[i].userId
  }

  /** The user ids of `cursors`. */
  function CursorIds(cursors: seq<CursorInfo>): set<string> {
    set c | c in cursors :: c.userId
  }

  /** `new Map(cursors.map(c => [c.userId, c]))`, filled front to back. */
  function CursorMap(cursors: seq<CursorInfo>): (r: map<string, CursorInfo>)
    ensures r.Keys == CursorIds(cursors)
  {
    if cursors == [] then map[]
    else
      var init, last := cursors[..|cursors| - 1], cursors[|cursors| - 1];
      assert cursors == init + [last];
      assert CursorIds(cursors) == CursorIds(init) + {last.userId};
      CursorMap(init)[last.userId := last]
  }

  /** If `cursors` repeats a user, the map holds the last of their cursors. */
  lemma {:induction false} CursorMapLastWins(cursors: seq<CursorInfo>, i: int)
    requires LastCursorOf(cursors, i)
    ensures CursorMap(cursors)[cursors[i].userId] == cursors[i]
    decreases |cursors|
  {
    var n := |cursors| - 1;
    var init := cursors[..n];
    assert CursorMap(cursors) == CursorMap(init)[cursors[n].userId := cursors[n]];
    if i < n {
      assert init[i] == cursors[i];
      assert cursors[n].userId != cursors[i].userId;
      assert LastCursorOf(init, i) by {
        forall j | i < j < |init| ensures init[j].userId != init[i].userId {
          assert init[j] == cursors[j];
        }
      }
      CursorMapLastWins(init, i);
    }
  }

  /** The ids of `allUsers`. */
  function UserIds(users: seq<JoinedUser>): (r: set<string>)
    ensures forall j :: 0 <= j < |users| ==> users[j].id in r
  {
    if users == [] then {} else UserIds(users[..|users| - 1]) + {users[|users| - 1].id}
  }

  /** Only ids of listed users are in `UserIds`. */
  lemma {:induction false} UserIdsListed(users: seq<JoinedUser>, k: string)
    requires k in UserIds(users)
    ensures exists j :: 0 <= j < |users| && users[j].id == k
  {
    var n := |users| - 1;
    if users[n].id != k {
      UserIdsListed(users[..n], k);
      var j :| 0 <= j < n && users[..n][j].id == k;
      assert users[j].id == k;
    }
  }

  /** `cursor?.x ?? existing?.x ?? 100` */
  function StartX(id: string, cursorMap: map<string, CursorInfo>, prev: RemoteCursorState): int {
    if id in cursorMap then cursorMap[id].x
    else if id in prev then prev[id].x
    else DefaultCoordinate
  }

  /** `cursor?.y ?? existing?.y ?? 100` */
  function StartY(id: string, cursorMap: map<string, CursorInfo>, prev: RemoteCursorState): int {
    if id in cursorMap then cursorMap[id].y
    else if id in prev then prev[id].y
    else DefaultCoordinate
  }

  /** The entry `user:joined` leaves for `user`: profile from the payload, position by `StartX`/`StartY`. */
  function Seated(user: JoinedUser, cursorMap: map<string, CursorInfo>, prev: RemoteCursorState): (r: RemoteCursor)
    ensures r.userId == user.id && r.nickname == user.nickname
    ensures r.color == user.color && r.backgroundColor == user.backgroundColor
  {
    RemoteCursor(user.id, user.nickname, user.color, user.backgroundColor,
                 StartX(user.id, cursorMap, prev), StartY(user.id, cursorMap, prev))
  }

  /** Position `i` of `users` is the last one with its id. */
  predicate LastUserOf(users: seq<JoinedUser>, i: int) {
    0 <= i < |users| && forall j :: i < j < |users| ==> users[j].id != users[i].id
  }

  lemma UserIdsStep(users: seq<JoinedUser>, i: int)
    requires 0 <= i < |users|
    ensures UserIds(users[..i + 1]) == UserIds(users[..i]) + {users[i].id}
  {
    assert users[..i + 1][..i] == users[..i];
  }

  /** A position other than the newest that is last in a longer prefix is last in the shorter one too. */
  lemma LastUserStep(users: seq<JoinedUser>, i: int, j: int)
    requires 0 <= j < i < |users| && LastUserOf(users[..i + 1], j)
    ensures LastUserOf(users[..i], j) && users[i].id != users[j].id
  {
    assert users[..i + 1][i] == users[i];
    assert forall m :: j < m < i ==> users[..i][m] == users[..i + 1][m];
  }

  /** What the `user:joined` loop has achieved after the first `n` listed users. */
  ghost predicate JoinedSoFar(prev: RemoteCursorState, users: seq<JoinedUser>, cursorMap: map<string, CursorInfo>,
                              n: int, next: RemoteCursorState)
    requires 0 <= n <= |users|
  {
    && next.Keys == prev.Keys + UserIds(users[..n])
    && (forall k :: k in prev && k !in UserIds(users[..n]) ==> k in next && next[k] == prev[k])
    && (forall k :: k in UserIds(users[..n]) ==>
          k in next && next[k].x == StartX(k, cursorMap, prev) && next[k].y == StartY(k, cursorMap, prev))
    && (forall j :: LastUserOf(users[..n], j) ==>
          users[j].id in next && next[users[j].id] == Seated(users[j], cursorMap, prev))
    && (KeyedByUser(prev) ==> KeyedByUser(next))
  }

  /** Part way through the loop, the coordinates an entry already has are the ones `StartX`/`StartY` give. */
  lemma PositionSoFar(prev: RemoteCursorState, users: seq<JoinedUser>, cursorMap: map<string, CursorInfo>,
                      n: int, next: RemoteCursorState, id: string)
    requires 0 <= n <= |users| && JoinedSoFar(prev, users, cursorMap, n, next)
    requires id !in cursorMap
    ensures id in next ==> next[id].x == StartX(id, cursorMap, prev) && next[id].y == StartY(id, cursorMap, prev)
    ensures id !in next ==> StartX(id, cursorMap, prev) == DefaultCoordinate == StartY(id, cursorMap, prev)
  {
  }

  /** The last listing of each user among the first `n + 1` is seated once the newest one is written. */
  lemma LastListingsStep(prev: RemoteCursorState, users: seq<JoinedUser>, cursorMap: map<string, CursorInfo>,
                         n: int, next: RemoteCursorState)
    requires 0 <= n < |users|
    requires forall j :: LastUserOf(users[..n], j) ==>
               users[j].id in next && next[users[j].id] == Seated(users[j], cursorMap, prev)
    ensures var after := next[users[n].id := Seated(users[n], cursorMap, prev)];
            forall j :: LastUserOf(users[..n + 1], j) ==>
              users[j].id in after && after[users[j].id] == Seated(users[j], cursorMap, prev)
  {
    var after := next[users[n].id := Seated(users[n], cursorMap, prev)];
    forall j | LastUserOf(users[..n + 1], j)
      ensures users[j].id in after && after[users[j].id] == Seated(users[j], cursorMap, prev)
    {
      if j < n {
        LastUserStep(users, n, j);
      }
    }
  }

  /** The entries after one more listed user: the earlier ones plus that user's. */
  lemma KeysStep(prev: RemoteCursorState, users: seq<JoinedUser>, n: int, next: RemoteCursorState, entry: RemoteCursor)
    requires 0 <= n < |users| && next.Keys == prev.Keys + UserIds(users[..n])
    ensures next[users[n].id := entry].Keys == prev.Keys + UserIds(users[..n + 1])
  {
    UserIdsStep(users, n);
  }

  /** Entries of users not yet listed are still the previous record's. */
  lemma KeptStep(prev: RemoteCursorState, users: seq<JoinedUser>, n: int, next: RemoteCursorState, entry: RemoteCursor)
    requires 0 <= n < |users|
    requires forall k :: k in prev && k !in UserIds(users[..n]) ==> k in next && next[k] == prev[k]
    ensures var after := next[users[n].id := entry];
            forall k :: k in prev && k !in UserIds(users[..n + 1]) ==> k in after && after[k] == prev[k]
  {
    UserIdsStep(users, n);
  }

  /** Every listed user's entry is at its start position. */
  lemma PositionsStep(prev: RemoteCursorState, users: seq<JoinedUser>, cursorMap: map<string, CursorInfo>,
                      n: int, next: RemoteCursorState)
    requires 0 <= n < |users|
    requires forall k :: k in UserIds(users[..n]) ==>
               k in next && next[k].x == StartX(k, cursorMap, prev) && next[k].y == StartY(k, cursorMap, prev)
    ensures var after := next[users[n].id := Seated(users[n], cursorMap, prev)];
            forall k :: k in UserIds(users[..n + 1]) ==>
              k in after && after[k].x == StartX(k, cursorMap, prev) && after[k].y == StartY(k, cursorMap, prev)
  {
    UserIdsStep(users, n);
  }

  /** Writing the seated entry of the next listed user extends what the loop has achieved by that user. */
  lemma JoinStep(prev: RemoteCursorState, users: seq<JoinedUser>, cursorMap: map<string, CursorInfo>,
                 n: int, next: RemoteCursorState)
    requires 0 <= n < |users| && JoinedSoFar(prev, users, cursorMap, n, next)
    ensures JoinedSoFar(prev, users, cursorMap, n + 1, next[users[n].id := Seated(users[n], cursorMap, prev)])
  {
    var entry := Seated(users[n], cursorMap, prev);
    KeysStep(prev, users, n, next, entry);
    KeptStep(prev, users, n, next, entry);
    PositionsStep(prev, users, cursorMap, n, next);
    LastListingsStep(prev, users, cursorMap, n, next);
  }

  /**
   * The `user:joined` updater. Every listed user ends up with an entry under
   * their id carrying the profile of their last listing; its position is their
   * payload cursor's (the last one listed), else their previous entry's, else
   * the default. A user listed twice sees, the second time, the entry written
   * the first time; its position is the same as the previous record's would
   * give. Entries of users not listed are kept.
   */
  method UserJoined(prev: RemoteCursorState, payload: UserJoinedPayload) returns (next: RemoteCursorState)
    ensures next.Keys == prev.Keys + UserIds(payload.allUsers)
    ensures forall k :: k in prev && k !in UserIds(payload.allUsers) ==> next[k] == prev[k]
    ensures forall i :: LastUserOf(payload.allUsers, i) ==>
              next[payload.allUsers[i].id] == Seated(payload.allUsers[i], CursorMap(payload.cursors), prev)
    ensures KeyedByUser(prev) ==> KeyedByUser(next)
  {
    var users := payload.allUsers;
    next := prev;
    var cursorMap := CursorMap(payload.cursors);
    var i := 0;
    while i < |users|
      invariant 0 <= i <= |users|
      invariant JoinedSoFar(prev, users, cursorMap, i, next)
    {
      var user := users[i];
      var x, y;
      if user.id in cursorMap {
        x, y := cursorMap[user.id].x, cursorMap[user.id].y;
      } else {
        PositionSoFar(prev, users, cursorMap, i, next, user.id);
        if user.id in next {
          x, y := next[user.id].x, next[user.id].y;
        } else {
          x, y := DefaultCoordinate, DefaultCoordinate;
        }
      }
      JoinStep(prev, users, cursorMap, i, next);
      next := next[user.id := RemoteCursor(user.id, user.nickname, user.color, user.backgroundColor, x, y)];
      i := i + 1;
    }
    assert users[..i] == users;
  }

  /** The `user:left` updater: a copy of the record without `userId`. */
  function UserLeft(prev: RemoteCursorState, userId: string): (r: RemoteCursorState)
    ensures r.Keys == prev.Keys - {userId}
    ensures forall k :: k in r ==> r[k] == prev[k]
    ensures userId !in prev ==> r == prev
    ensures KeyedByUser(prev) ==> KeyedByUser(r)
  {
    prev - {userId}
  }

  /**
   * The `cursor:moved` updater: a known user keeps their entry with the new
   * coordinates; an unknown one gets a placeholder entry at them.
   */
  function CursorMoved(prev: RemoteCursorState, payload: CursorMovedPayload): (r: RemoteCursorState)
    ensures r.Keys == prev.Keys + {payload.userId}
    ensures forall k :: k in prev && k != payload.userId ==> r[k] == prev[k]
    ensures r[payload.userId].x == payload.moveData.x && r[payload.userId].y == payload.moveData.y
    ensures payload.userId in prev ==>
              var e, n := prev[payload.userId], r[payload.userId];
              n.userId == e.userId && n.nickname == e.nickname &&
              n.color == e.color && n.backgroundColor == e.backgroundColor
    ensures payload.userId !in prev ==>
              var n := r[payload.userId];
              n.userId == payload.userId && n.nickname == PlaceholderNickname &&
              n.color == PlaceholderColor && n.backgroundColor == PlaceholderColor
    ensures KeyedByUser(prev) ==> KeyedByUser(r)
  {
    var userId, moveData := payload.userId, payload.moveData;
    if userId !in prev then
      prev[userId := RemoteCursor(userId, PlaceholderNickname, PlaceholderColor, PlaceholderColor,
                                  moveData.x, moveData.y)]
    else
      prev[userId := prev[userId].(x := moveData.x, y := moveData.y)]
  }

  /** Of two moves of the same cursor only the second one's coordinates remain. */
  lemma CursorMovedTwice(prev: RemoteCursorState, first: CursorMovedPayload, second: CursorMovedPayload)
    requires first.userId == second.userId
    ensures CursorMoved(CursorMoved(prev, first), second) == CursorMoved(prev, second)
  {
  }

  /** A user's moves are forgotten once they leave. */
  lemma MoveThenLeave(prev: RemoteCursorState, payload: CursorMovedPayload)
    ensures UserLeft(CursorMoved(prev, payload), payload.userId) == UserLeft(prev, payload.userId)
  {
  }

  /** Leaving twice is leaving once. */
  lemma LeaveTwice(prev: RemoteCursorState, userId: string)
    ensures UserLeft(UserLeft(prev, userId), userId) == UserLeft(prev, userId)
  {
  }

  /**
   * A `cursor:moved` that arrives after the same user's `user:left` brings them
   * back as a placeholder, whatever their entry was.
   */
  lemma MoveAfterLeaveIsPlaceholder(prev: RemoteCursorState, payload: CursorMovedPayload)
    ensures CursorMoved(UserLeft(prev, payload.userId), payload)[payload.userId]
            == RemoteCursor(payload.userId, PlaceholderNickname, PlaceholderColor, PlaceholderColor,
                            payload.moveData.x, payload.moveData.y)
  {
  }

  /** A `user:joined` listing nobody changes nothing. */
  method JoinNobody(prev: RemoteCursorState, cursors: seq<CursorInfo>) returns (next: RemoteCursorState)
    ensures next == prev
  {
    next := UserJoined(prev, UserJoinedPayload([], cursors));
    assert next.Keys == prev.Keys;
  }
}
