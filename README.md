# web15-ipconfig real-time workspace core, modelled in Dafny

web15-ipconfig is a shared canvas for team workspaces. Users join a workspace over
socket.io, see each other's cursors, and place widgets on the canvas: tech-stack
pickers, sticky notes and ground rules. This project models the logic behind that,
and proves properties of it:

- **The backend widget store** (`WidgetMemoryService`). It keeps an in-memory table of
  widgets for each workspace. It supports upsert `create`, `findAll`, `findOne`,
  `update` and `remove`, and `update` merges a partial widget into the stored one.
- **The session registry** (`WorkspaceService`). It maps socket id to `{roomId, user}`.
- **The workspace gateway** (`WorkspaceGateway`). For `user:join`, `user:leave`,
  `cursor:move` and disconnects, it updates the registry, adds or removes the calling
  socket's rooms, and broadcasts events to a room.
- **The client's remote-cursor reducers** in `useSocket`, for `user:joined`,
  `user:left` and `cursor:moved`.
- **The icon URL rule for tech labels** (`getTechIconUrl`, in two copies). It looks the
  name up in an override table; otherwise it builds a Simple Icons slug from the name.
- **The case-insensitive filter of the tech-stack picker** (`LabelList`).

Modules, one per concern:

- Shared helpers: `Wrappers` (Option), `OrderedMaps` (a JavaScript `Map`: entries plus
  first-insertion key order) and `JsStrings` (the string builtins used, over ASCII).
- Widget store: `WidgetDtos` (widget shapes and the update merge) and `WidgetMemory`
  (the store class).
- Sessions and routing: `WorkspaceSessions` (the registry class) and `WorkspaceRouting`
  (the gateway class over an emission log, plus a client class holding a set of rooms).
- Client cursors: `RemoteCursors`.
- Icons and search: `TechIconUrl`, `TeckLabel`, `SlugExamples` and `LabelList`.

The classes follow the source's own state:

- The store's `workspaces` field is a map from workspace id to an ordered widget table.
- The registry's `userSessions` field is an ordered table of sessions.
- The gateway appends to an `emitted` log. Each client object holds its `rooms`.

Every method states the new state exactly, in terms of the old one. `user:joined` is a
`forEach` loop in the source, so it is a method with a loop, proved against its
postcondition. The other reducers and the string helpers are functions.

Two behaviours of the code are worth spelling out, because the model shows them as written:

- **Content tag.** `update` spreads the partial content over the stored content
  (`widget.memory.service.ts:61-66`), so a supplied `widgetType` replaces the stored
  tag. The update DTO declares `widgetType` required in a content patch
  (`update-widget.dto.ts:35`), but neither it nor the store checks that it equals the
  stored tag. `WidgetDtos.TagChangesOnlyIfSupplied` states exactly when the tag changes.
  `WidgetDtos.RetagBreaksConformance` shows the result can then match no content DTO.
  `WidgetDtos.ConformsPreserved` shows that a patch that omits or repeats the stored tag
  keeps the content well formed.
- **Join without leave.** `handleUserJoin` calls `client.join` and never `client.leave`
  (`workspace.gateway.ts:52-54`), so a socket that joins a second workspace stays in the
  first one's room and keeps receiving its broadcasts. `WorkspaceRouting.RejoinKeepsOldRoom`
  shows this.

## Model

| member | source | states |
|---|---|---|
| OrderedMaps.OrderedMap.Set | backend/src/widget/widget.memory.service.ts:22 | `set` gives the key the new value and leaves every other key's value alone. A present key keeps its position; a new key goes last. The table stays well formed. |
| OrderedMaps.OrderedMap.Delete | backend/src/widget/widget.memory.service.ts:82 | `delete` removes exactly that key and leaves every other value alone. The remaining keys are the old ones without it, in their order (see DeleteKeepsOrder), and an absent key changes nothing. |
| OrderedMaps.OrderedMap.Values | backend/src/widget/widget.memory.service.ts:28 | `Array.from(values())` lists one value per key, in key order, and contains exactly the stored values. |
| OrderedMaps.Without | backend/src/workspace/workspace.service.ts:26 | Removes every occurrence of a key from the key order and nothing else; a list without the key is unchanged. |
| OrderedMaps.WithoutAppend | backend/src/workspace/workspace.service.ts:26 | Removing a key works piece by piece over a concatenation, so what remains keeps its relative order. |
| OrderedMaps.DeleteKeepsOrder | backend/src/widget/widget.memory.service.ts:82 | Deleting a key from the middle closes the gap: the keys before it and after it stay in their order. |
| OrderedMaps.DeleteThenSetMovesToEnd | backend/src/widget/widget.memory.service.ts:21-22 | Re-creating a deleted widget puts it last. Overwriting a present one keeps its place. |
| OrderedMaps.OrderedMap.Has | backend/src/widget/widget.memory.service.ts:79 | `map.has(k)` holds exactly for keys with an entry. |
| OrderedMaps.OrderedMap.Get | backend/src/widget/widget.memory.service.ts:36 | `map.get(k)` gives the stored value for a present key and nothing (`undefined`) for an absent one. |
| OrderedMaps.Empty | backend/src/widget/widget.memory.service.ts:12 | `new Map()` has no keys and no entries. |
| WidgetDtos.TechStackContent | backend/src/widget/dto/widget-content.dto.ts:25-38 | The tech-stack content DTO carries the TECH_STACK tag, the given `selectedItems`, and no other variant's fields, so it conforms. |
| WidgetDtos.PostItContent | backend/src/widget/dto/widget-content.dto.ts:40-56 | The sticky-note content DTO carries the POST_IT tag, the given `text`, `backgroundColor` and `fontSize`, and no other variant's fields, so it conforms. |
| WidgetDtos.GroundRuleContent | backend/src/widget/dto/widget-content.dto.ts:58-73 | The ground-rule content DTO carries the GROUND_RULE tag, the given optional `rules`, and no other variant's fields; it conforms with or without `rules`. |
| WidgetDtos.SpreadContent | backend/src/widget/widget.memory.service.ts:62-65 | `{...old.content, ...patch.content}`: each supplied sub-field, the tag included, replaces the old value; each omitted sub-field keeps it. |
| Wrappers.Option.GetOr | backend/src/widget/widget.memory.service.ts:57-60 | An optional field of a patch: the supplied value, or the stored one when it is omitted (the effect of an object spread on one field). |
| WidgetDtos.MergeWidget | backend/src/widget/widget.memory.service.ts:56-68 | `widgetId` and `type` are untouched. Each supplied x, y, width, height or zIndex replaces the old value, and each omitted one keeps it. Content is unchanged without a content patch and spread one level deep with one. |
| WidgetDtos.EmptyPatchIsIdentity | backend/src/widget/widget.memory.service.ts:56-68 | A patch supplying nothing leaves the widget as it was. |
| WidgetDtos.MergeIdempotent | backend/src/widget/widget.memory.service.ts:56-68 | Applying the same patch twice gives the same widget as applying it once. |
| WidgetDtos.TagChangesOnlyIfSupplied | backend/src/widget/widget.memory.service.ts:61-66 | The content tag changes if and only if the patch has content that supplies a different `widgetType`. |
| WidgetDtos.FieldsNeverDropped | backend/src/widget/widget.memory.service.ts:61-66 | No content sub-field that was present is lost by a merge. |
| WidgetDtos.ConformsPreserved | backend/src/widget/widget.memory.service.ts:61-66 | Content conforming to its tag's DTO still conforms after any patch whose content omits `widgetType` or repeats the stored one. |
| WidgetDtos.RetagBreaksConformance | backend/src/widget/widget.memory.service.ts:61-66 | Retagging a sticky note as a tech stack without `selectedItems` leaves content that matches no content DTO. |
| WidgetMemory.NotFoundMessage | backend/src/widget/widget.memory.service.ts:38 | The NotFound message is `Widget with ID <id> not found`. |
| WidgetMemory.WidgetMemoryService.Room | backend/src/widget/widget.memory.service.ts:10-15 | The table `getWidgetsMap` would hand back, read without changing anything: the stored one, or an empty one for a workspace that has none. It is always well formed. |
| WidgetMemory.WidgetMemoryService.GetWidgetsMap | backend/src/widget/widget.memory.service.ts:10-15 | Returns the workspace's table. If it had none, an empty table is added, and nothing else changes. |
| WidgetMemory.WidgetMemoryService.Create | backend/src/widget/widget.memory.service.ts:17-24 | Returns the DTO unchanged and stores it under its `widgetId` in that workspace. Every other widget there, and every other workspace, is left alone. |
| WidgetMemory.WidgetMemoryService.FindAll | backend/src/widget/widget.memory.service.ts:26-29 | Returns exactly the workspace's widgets in first-insertion order. The only state change is an empty table for a workspace that had none. |
| WidgetMemory.WidgetMemoryService.FindOne | backend/src/widget/widget.memory.service.ts:31-41 | Succeeds exactly when the id is stored, and returns that widget. Otherwise fails with NotFound and that message. |
| WidgetMemory.WidgetMemoryService.Update | backend/src/widget/widget.memory.service.ts:43-72 | On an absent id: fails with NotFound and that message; the only state change is the empty table `getWidgetsMap` adds for a workspace that had none. Otherwise it stores and returns the merge under the same id, and the table's key order is unchanged. |
| WidgetMemory.WidgetMemoryService.Remove | backend/src/widget/widget.memory.service.ts:74-84 | On a present id: deletes it and returns `{widgetId}`. On an absent id: fails with NotFound; the only state change is the empty table `getWidgetsMap` adds for a workspace that had none. |
| WidgetMemory.WidgetMemoryService.constructor | backend/src/widget/widget.memory.service.ts:8 | The store starts with no workspaces. |
| WidgetMemory.CreateThenFind | backend/src/widget/widget.memory.service.ts:17-41 | After `create`, `findOne` returns that widget and `findAll` lists only it; another workspace lists nothing. |
| WidgetMemory.UpdateMoves | backend/src/widget/widget.memory.service.ts:43-72 | An update supplying only `x=50` changes only x, and `findOne` returns the updated widget. |
| WidgetMemory.RemoveTwice | backend/src/widget/widget.memory.service.ts:74-84 | After `remove`, both `findOne` and a second `remove` fail with NotFound. |
| WorkspaceSessions.JoinedUser | backend/src/workspace/workspace.service.ts:40-44 | The recorded user has exactly the payload user's id, nickname and color. |
| WorkspaceSessions.DepartureOf | backend/src/workspace/workspace.service.ts:19-28 | Null exactly when the socket has no session. Otherwise it is the session's room and user id. |
| WorkspaceSessions.UsersIn | backend/src/workspace/workspace.service.ts:88-90 | A user is in the result if and only if some session of that room carries it. |
| WorkspaceSessions.UsersInAppend | backend/src/workspace/workspace.service.ts:88-90 | The filter keeps session order: users of earlier sessions come first. |
| WorkspaceSessions.UsersInOne | backend/src/workspace/workspace.service.ts:89-90 | A single session contributes its user exactly when it is in the room. |
| WorkspaceSessions.UsersInEmptyRoom | backend/src/workspace/workspace.service.ts:87-91 | A room with no sessions has no users. |
| WorkspaceSessions.WorkspaceService.constructor | backend/src/workspace/workspace.service.ts:14 | The registry starts empty. |
| WorkspaceSessions.WorkspaceService.HandleDisconnect | backend/src/workspace/workspace.service.ts:16-29 | Returns the departure (or null) and deletes only that socket's session. |
| WorkspaceSessions.WorkspaceService.JoinUser | backend/src/workspace/workspace.service.ts:31-53 | Returns `{roomId: workspaceId, user}` and records that session under the socket id, replacing any earlier one. |
| WorkspaceSessions.WorkspaceService.LeaveUser | backend/src/workspace/workspace.service.ts:55-68 | The same result and the same state change as `handleDisconnect`. |
| WorkspaceSessions.WorkspaceService.GetUserBySocketId | backend/src/workspace/workspace.service.ts:71-84 | Null exactly when there is no session. Otherwise it is the session's room and user. It reads the registry and changes nothing. |
| WorkspaceSessions.WorkspaceService.GetUsersByRoomId | backend/src/workspace/workspace.service.ts:87-91 | The filter-map `UsersIn` over the sessions in registry order: one entry per session of the room, in session order (with UsersInAppend and UsersInOne), so a user with two sockets in the room appears twice. Membership is exactly the users of the room's sessions, and a room with no sessions gives none. |
| WorkspaceSessions.DisconnectIsLeave | backend/src/workspace/workspace.service.ts:16-68 | On equal registries, `handleDisconnect` and `leaveUser` return the same and leave equal registries. |
| WorkspaceSessions.RejoinReplacesSession | backend/src/workspace/workspace.service.ts:46-50 | A second join of the same socket replaces its session: the last join wins, and leaving reports the second room. |
| WorkspaceRouting.DepartureEmissions | backend/src/workspace/workspace.gateway.ts:40-44 | Two broadcasts to the old room: `user:status {userId, OFFLINE}`, then `user:left userId`. |
| WorkspaceRouting.ArrivalEmissions | backend/src/workspace/workspace.gateway.ts:56-60 | Two broadcasts to the room: `user:status {user.id, ONLINE}`, then `user:joined user`. |
| WorkspaceRouting.Client.constructor | backend/src/workspace/workspace.gateway.ts:33 | A socket with its id, in no room of this namespace yet. |
| WorkspaceRouting.Client.Join | backend/src/workspace/workspace.gateway.ts:54 | `client.join` adds the room and keeps the others. |
| WorkspaceRouting.Client.Leave | backend/src/workspace/workspace.gateway.ts:74 | `client.leave` removes that room only. |
| WorkspaceRouting.NameTellsKind | backend/src/workspace/workspace.gateway.ts:40-96 | The wire names `user:status`, `user:joined`, `user:left` and `cursor:moved` are pairwise different: two events share a name exactly when they are of the same kind. |
| WorkspaceRouting.WorkspaceGateway.Emit | backend/src/workspace/workspace.gateway.ts:40 | A broadcast is appended to the log. |
| WorkspaceRouting.WorkspaceGateway.constructor | backend/src/workspace/workspace.gateway.ts:31 | The gateway uses the given registry and has sent nothing yet. |
| WorkspaceRouting.WorkspaceGateway.HandleDisconnect | backend/src/workspace/workspace.gateway.ts:33-45 | The session is deleted. With no session, nothing is emitted. With one, exactly the two departure broadcasts go to its room. |
| WorkspaceRouting.WorkspaceGateway.HandleUserJoin | backend/src/workspace/workspace.gateway.ts:47-61 | The session is recorded, replacing any earlier one. The room is added to the socket's rooms and earlier rooms stay. Exactly the two arrival broadcasts go to that room. |
| WorkspaceRouting.WorkspaceGateway.HandleUserLeave | backend/src/workspace/workspace.gateway.ts:63-81 | It uses only the socket's session; the payload plays no part. Without a session, nothing changes and nothing is emitted. With one: the session is deleted, the socket leaves that room, and the two departure broadcasts follow. |
| WorkspaceRouting.WorkspaceGateway.HandleCursorMove | backend/src/workspace/workspace.gateway.ts:83-97 | Without a session, nothing is emitted. With one, exactly one `cursor:moved` goes to the session's room, carrying the payload unchanged. |
| WorkspaceRouting.RejoinKeepsOldRoom | backend/src/workspace/workspace.gateway.ts:52-54 | After joining two workspaces, the socket is in both rooms. Its disconnect is announced only to the second. |
| RemoteCursors.CursorMap | frontend/src/hooks/useSocket.ts:79-81 | The cursor map's keys are exactly the user ids of the payload cursors. |
| RemoteCursors.CursorMapLastWins | frontend/src/hooks/useSocket.ts:79-81 | If `cursors` repeats a user, the map holds that user's last cursor. |
| RemoteCursors.UserIds | frontend/src/hooks/useSocket.ts:83 | Contains the id of every listed user. |
| RemoteCursors.UserIdsListed | frontend/src/hooks/useSocket.ts:83 | Contains only ids of listed users. |
| RemoteCursors.StartX | frontend/src/hooks/useSocket.ts:92 | `cursor?.x ?? existing?.x ?? 100`: the payload cursor's x, else the existing entry's, else 100. |
| RemoteCursors.StartY | frontend/src/hooks/useSocket.ts:93 | The same for y. |
| RemoteCursors.Seated | frontend/src/hooks/useSocket.ts:87-94 | The entry written for a user carries that user's id, nickname, color and backgroundColor. |
| RemoteCursors.UserJoined | frontend/src/hooks/useSocket.ts:76-98 | The result's keys are the old keys plus the listed ids, and unlisted entries are unchanged. Each listed user's entry is seated from their last listing, KeyedByUser is preserved, and coordinates come from the last payload cursor, else the old entry, else 100. |
| RemoteCursors.UserLeft | frontend/src/hooks/useSocket.ts:103-109 | Removes exactly that key, keeps every other entry, is a no-op for an absent key, and preserves KeyedByUser. |
| RemoteCursors.CursorMoved | frontend/src/hooks/useSocket.ts:117-141 | Other entries are unchanged. A known user keeps everything but the new x and y. An unknown user gets a placeholder entry: nickname `임시 유저`, color and background `#3b82f6`, at the coordinates. KeyedByUser is preserved. |
| RemoteCursors.CursorMovedTwice | frontend/src/hooks/useSocket.ts:117-141 | Of two moves of one cursor, only the second's coordinates remain. |
| RemoteCursors.MoveThenLeave | frontend/src/hooks/useSocket.ts:103-141 | A move followed by that user's `user:left` is the same as the `user:left` alone. |
| RemoteCursors.LeaveTwice | frontend/src/hooks/useSocket.ts:103-109 | `user:left` is idempotent. |
| RemoteCursors.MoveAfterLeaveIsPlaceholder | frontend/src/hooks/useSocket.ts:119-131 | A `cursor:moved` arriving after that user's `user:left` re-creates them as a placeholder. |
| RemoteCursors.JoinNobody | frontend/src/hooks/useSocket.ts:76-98 | A `user:joined` listing no users leaves the record unchanged, whatever cursors it carries. |
| JsStrings.IsWhitespace | frontend/src/features/widgets/techStack/utils/getTechIconUrl.ts:8-10 | The ASCII members of `\s`, which are also what `trim` strips: space, tab, line feed, vertical tab, form feed, carriage return. |
| JsStrings.LowerChar | frontend/src/features/widgets/techStack/utils/getTechIconUrl.ts:8 | Lower-cases one ASCII character: an upper-case letter becomes the letter 32 code points above it (`A` to `a`), which is never upper case; anything not upper case is unchanged. |
| JsStrings.ToLower | frontend/src/features/widgets/techStack/utils/getTechIconUrl.ts:8 | `toLowerCase` keeps the length, lowers each character, leaves no upper case, and is the identity on text with no upper case. |
| JsStrings.TrimStart | frontend/src/features/widgets/techStack/utils/getTechIconUrl.ts:8 | The result does not start with whitespace. |
| JsStrings.TrimEnd | frontend/src/features/widgets/techStack/utils/getTechIconUrl.ts:8 | The result does not end with whitespace. |
| JsStrings.TrimStartDropsPrefix | frontend/src/features/widgets/techStack/utils/getTechIconUrl.ts:8 | `TrimStart` cuts off a prefix made only of whitespace and keeps the rest as it is. |
| JsStrings.TrimEndDropsSuffix | frontend/src/features/widgets/techStack/utils/getTechIconUrl.ts:8 | `TrimEnd` cuts off a suffix made only of whitespace and keeps the rest as it is. |
| JsStrings.Trim | frontend/src/features/widgets/techStack/utils/getTechIconUrl.ts:8 | `trim` never lengthens the text. |
| JsStrings.TrimCleanEnds | frontend/src/features/widgets/techStack/utils/getTechIconUrl.ts:8 | The result of `trim` neither starts nor ends with whitespace. |
| JsStrings.TrimKeepsMiddle | frontend/src/features/widgets/techStack/utils/getTechIconUrl.ts:8 | `trim` keeps a contiguous stretch of the text, and everything it cuts off before and after is whitespace. |
| JsStrings.TrimWithin | frontend/src/features/widgets/techStack/utils/getTechIconUrl.ts:8 | `trim` introduces no character, and leaves text without whitespace as it is. |
| JsStrings.BeforeFirst | frontend/src/features/widgets/techStack/utils/getTechIconUrl.ts:8 | `split(sep)[0]` is a prefix without `sep`. It is the whole text if `sep` is absent. |
| JsStrings.BeforeFirstStops | frontend/src/features/widgets/techStack/utils/getTechIconUrl.ts:8 | Everything after the first separator is ignored. |
| JsStrings.RemoveWhitespace | frontend/src/features/widgets/techStack/utils/getTechIconUrl.ts:10 | `replace(/\s+/g, '')` never lengthens the text. |
| JsStrings.RemoveWhitespaceLeavesNone | frontend/src/features/widgets/techStack/utils/getTechIconUrl.ts:10 | No whitespace survives `replace(/\s+/g, '')`. |
| JsStrings.RemoveWhitespaceAddsNothing | frontend/src/features/widgets/techStack/utils/getTechIconUrl.ts:10 | Removing whitespace introduces no character. |
| JsStrings.RemoveWhitespaceNoUpper | frontend/src/features/widgets/techStack/utils/getTechIconUrl.ts:10 | Removing whitespace from text without upper case leaves none. |
| JsStrings.RemoveWhitespaceWithoutWhitespace | frontend/src/features/widgets/techStack/utils/getTechIconUrl.ts:10 | Text without whitespace comes back unchanged. |
| JsStrings.ReplaceDots | frontend/src/features/widgets/techStack/utils/getTechIconUrl.ts:10 | `replace(/\./g, 'dot')` never shortens the text. |
| JsStrings.ReplaceDotsLeavesNoDot | frontend/src/features/widgets/techStack/utils/getTechIconUrl.ts:10 | No '.' survives `replace(/\./g, 'dot')`. |
| JsStrings.ReplaceDotsAddsNothing | frontend/src/features/widgets/techStack/utils/getTechIconUrl.ts:10 | A character that is neither '.' nor one of the letters of "dot" appears in the result only if it was in the input. |
| JsStrings.ReplaceDotsNoUpper | frontend/src/features/widgets/techStack/utils/getTechIconUrl.ts:10 | Replacing dots introduces no upper-case letter. |
| JsStrings.ReplaceDotsNoWhitespace | frontend/src/features/widgets/techStack/utils/getTechIconUrl.ts:10 | Replacing dots introduces no whitespace. |
| JsStrings.ReplaceDotsWithoutDots | frontend/src/features/widgets/techStack/utils/getTechIconUrl.ts:10 | Text without '.' comes back unchanged. |
| JsStrings.RemoveWhitespaceAppend | frontend/src/features/widgets/techStack/utils/getTechIconUrl.ts:10 | Removing whitespace works piece by piece over a concatenation. |
| JsStrings.ReplaceDotsAppend | frontend/src/features/widgets/techStack/utils/getTechIconUrl.ts:10 | Replacing dots works piece by piece over a concatenation. |
| JsStrings.Includes | frontend/src/features/widgets/techStack/components/modal/LabelList.tsx:9 | `includes` can only hold when the keyword is no longer than the text. |
| JsStrings.FirstOccurrence | frontend/src/features/widgets/techStack/components/modal/LabelList.tsx:9 | Wherever `includes` holds, it yields the first position at which the keyword occurs: it occurs there and at no earlier position. |
| JsStrings.OccurrenceIncluded | frontend/src/features/widgets/techStack/components/modal/LabelList.tsx:9 | An occurrence of the keyword at any position makes `includes` hold. Together with FirstOccurrence this gives both directions of the iff. |
| TechIconUrl.Slug | frontend/src/features/widgets/techStack/utils/getTechIconUrl.ts:8-10 | The slug has no '/', '.', whitespace or upper-case ASCII letter. |
| TechIconUrl.GetTechIconUrl | frontend/src/features/widgets/techStack/utils/getTechIconUrl.ts:3-13 | Always starts with `https://cdn.simpleicons.org/`. A name with a non-empty table entry gets that entry after the prefix; any other name gets its slug. |
| TechIconUrl.CleanSlugIsFixed | frontend/src/features/widgets/techStack/utils/getTechIconUrl.ts:8-10 | The slug rule leaves a clean slug unchanged. |
| TechIconUrl.SlugIdempotent | frontend/src/features/widgets/techStack/utils/getTechIconUrl.ts:8-10 | Normalising a slug a second time changes nothing. |
| TechIconUrl.SameHeadSameUrl | frontend/src/features/widgets/techStack/utils/getTechIconUrl.ts:8 | Two unmapped names with the same part before the first '/' get the same URL. |
| TechIconUrl.UnmappedUrlIsClean | frontend/src/features/widgets/techStack/utils/getTechIconUrl.ts:8-12 | After the prefix, an unmapped name's URL is a clean slug. |
| SlugExamples.AwsSlug | frontend/src/features/techStack/components/TeckLabel.tsx:64-67 | The slug rule alone turns `AWS` into `aws`. |
| SlugExamples.ReduxSlug | frontend/src/features/techStack/components/TeckLabel.tsx:63-67 | `Redux / Redux Toolkit` slugs to `redux`. |
| SlugExamples.SocketIoSlug | frontend/src/features/techStack/components/TeckLabel.tsx:64-67 | `Socket.IO` slugs to `socketdotio`. |
| SlugExamples.SpringBootSlug | frontend/src/features/techStack/components/TeckLabel.tsx:64-67 | `Spring Boot` slugs to `springboot`. |
| TeckLabel.IconMapEntries | frontend/src/features/techStack/components/TeckLabel.tsx:4-55 | The component's table is exactly the 49 names the source lists, each once: its keys are the names of the four runs, and it has 49 entries. |
| TeckLabel.NoNameTwice | frontend/src/features/techStack/components/TeckLabel.tsx:4-55 | The source lists 49 names with no name twice, within a run or across runs. |
| TeckLabel.SlugsNonEmpty | frontend/src/features/techStack/components/TeckLabel.tsx:4-55 | Every slug in the table is non-empty, so the guard `iconMap[name]` holds for every name in the table. |
| TeckLabel.GetTechIconUrl | frontend/src/features/techStack/components/TeckLabel.tsx:57-71 | The component's copy, over its own table, always starts with the CDN prefix. |
| TeckLabel.AgreesWithUtility | frontend/src/features/techStack/components/TeckLabel.tsx:57-71 | For every name, the component's copy agrees with the utility given the same table. |
| TeckLabel.FromTable | frontend/src/features/techStack/components/TeckLabel.tsx:59-61 | Any name with a non-empty entry in the component's table gets the prefix plus that entry. |
| TeckLabel.FirstRunWins | frontend/src/features/techStack/components/TeckLabel.tsx:5-17 | An entry of the table's first run that no later run repeats is the table's entry for that name. |
| TeckLabel.OutsideTable | frontend/src/features/techStack/components/TeckLabel.tsx:63-70 | A name outside the table gets the prefix plus its slug. |
| TeckLabel.NextJsIsMapped | frontend/src/features/techStack/components/TeckLabel.tsx:6 | `Next.js` gives `https://cdn.simpleicons.org/nextdotjs`. |
| TeckLabel.AwsIsMapped | frontend/src/features/techStack/components/TeckLabel.tsx:14 | The table beats the slug rule: `AWS` gives `.../amazonaws`, not `.../aws`. |
| TeckLabel.ReduxUsesPartBeforeSlash | frontend/src/features/techStack/components/TeckLabel.tsx:63-64 | The unmapped `Redux / Redux Toolkit` gives `.../redux`. |
| TeckLabel.SocketIoSpellsDot | frontend/src/features/techStack/components/TeckLabel.tsx:66-67 | The unmapped `Socket.IO` gives `.../socketdotio`. |
| TeckLabel.SpringBootDropsSpace | frontend/src/features/techStack/components/TeckLabel.tsx:66-67 | The unmapped `Spring Boot` gives `.../springboot`. |
| LabelList.Matches | frontend/src/features/widgets/techStack/components/modal/LabelList.tsx:9 | The filter's test: the lower-cased name includes the lower-cased keyword. |
| LabelList.Filter | frontend/src/features/widgets/techStack/components/modal/LabelList.tsx:9 | An entry is kept if and only if its lower-cased name includes the keyword, and the result is an order-preserving subsequence of the catalogue. |
| LabelList.FilterAppend | frontend/src/features/widgets/techStack/components/modal/LabelList.tsx:9 | The filter works entry by entry over a concatenation, so with FilterOne each catalogue entry, duplicates included, is kept once if it matches and dropped otherwise. |
| LabelList.FilterOne | frontend/src/features/widgets/techStack/components/modal/LabelList.tsx:9 | A single entry is kept exactly when it matches. |
| LabelList.FilteredStacks | frontend/src/features/widgets/techStack/components/modal/LabelList.tsx:7-10 | An entry is kept if and only if its lower-cased name includes the lower-cased keyword. The result keeps catalogue order. |
| LabelList.EmptyKeywordKeepsAll | frontend/src/features/widgets/techStack/components/modal/LabelList.tsx:9 | The empty keyword keeps the whole catalogue. |
| LabelList.CaseOfKeywordIrrelevant | frontend/src/features/widgets/techStack/components/modal/LabelList.tsx:8 | Keywords that differ only in ASCII case give the same result. |
| LabelList.Names | frontend/src/features/widgets/techStack/components/modal/LabelList.tsx:18-20 | One label per kept entry, in order, showing that entry's name. |
| LabelList.Render | frontend/src/features/widgets/techStack/components/modal/LabelList.tsx:12-22 | The NoContents branch appears exactly when no entry matches. Otherwise a non-empty list of the kept names appears. |

## Left out

- I/O, transport and async:
  - The socket.io transport, the gateway decorators and CORS settings, and `async`/`await` are not modelled.
  - The store resolves its promises at once, so each handler is one sequential step.
  - No interleaving or concurrency is modelled.
  - Emitting is an append to a log; `client.join`/`client.leave` are updates of a set.
- WorkspaceRouting.WorkspaceGateway.HandleDisconnect: socket.io itself takes a disconnected socket out of all its rooms. The handler does not do this, so the model leaves `client.rooms` as it was. Nothing later uses a disconnected socket's rooms.
- WorkspaceRouting.Client.constructor: socket.io also puts each socket in a room named after its own id. No handler here uses that room, so the model starts a client with no rooms.
- WidgetMemory.WidgetMemoryService.GetWidgetsMap: the source hands back the inner `Map` itself, and callers mutate it in place. The model hands back the table as a value, and callers write the changed table back. Aliasing of that inner `Map` is therefore not modelled (nothing else holds it).
- The widget gateway is a stub in the source and is not part of this model. No widget broadcast or "not joined" error is modelled.
- The server keeps no cursor store. `user:joined` from the server carries one user, while the client reducer expects `{allUsers, cursors}`. Each side is modelled as written, and they are not connected.
- The DTOs' class-validator, class-transformer and Swagger decorators are not modelled; only the DTO shapes are.
- The widget payload is taken as already validated. Validation of enum values, of numbers and of any extra fields is not modelled.
- Coordinates, sizes and font sizes are JavaScript numbers that are only copied, so they are `int`. Fractions and NaN are not modelled.
- JsStrings:
  - `toLowerCase`, `trim` and `\s` are modelled over ASCII only (space, tab, line feed, vertical tab, form feed, carriage return), not over full Unicode.
  - An `iconMap` lookup sees only the table's own keys, not keys inherited through the JavaScript prototype.
- RemoteCursors: the cursor record is a plain JavaScript object keyed by user id, modelled as a Dafny map. A user id such as `__proto__` that JavaScript treats specially as an object key is not modelled.
- TeckLabel.GetTechIconUrl: the table is written as four consecutive runs joined into one map, which keeps each proof about it small. `TECH_STACKS` and the utility's own `iconMap` constant file are not part of this model; they are parameters.
- `WorkSpacePage.tsx` keeps an older copy of the cursor reducers, and the old `TechStackModal.tsx` repeats the filter inline. Both are UI and duplicates, and are not modelled.
- The rendering components (the cursor, search bars, modal header, NoContents and the labels) are not modelled.
- A user's `backgroundColor` is sent by the client in `user:join` but dropped by `joinUser`. `WorkspaceSessions.JoinedUser` shows it is dropped; what the web client then shows for that user is not modelled.
