/**
 * `WidgetMemoryService`: the backend's in-memory widget store. Each workspace
 * has its own table of widgets keyed by widget id, in first-insertion order;
 * a workspace's table is created empty the first time any operation names it.
 * `findOne`, `update` and `remove` of an absent widget fail with NotFound.
 */
module WidgetMemory {
  import opened Wrappers
  import opened OrderedMaps
  import opened WidgetDtos

  /** Nest's `NotFoundException` with its message. */
  datatype NotFoundException = NotFoundException(message: string)

  /** A call's outcome: its value, or the exception it throws. */
  datatype Result<T> = Ok(value: T) | Err(error: NotFoundException)

  /** The message every NotFound of the store carries. */
  function NotFoundMessage(widgetId: string): (r: string)
    ensures r == "Widget with ID " + widgetId + " not found"
  {
    "Widget with ID " + widgetId + " not found"
  }

  /** What `remove` resolves with. */
  datatype Removed = Removed(widgetId: string)

  /** A room's table is well formed and holds every widget under its own id. */
  ghost predicate RoomValid(room: OrderedMap<Widget>) {
    room.Valid() && forall id :: id in room.entries ==> room.entries[id].widgetId == id
  }

  class WidgetMemoryService {
    /** Workspace id to that workspace's widgets (the order of workspaces is never observed). */
    var workspaces: map<string, OrderedMap<Widget>>

    ghost predicate Valid()
      reads this
    {
      forall w :: w in workspaces ==> RoomValid(workspaces[w])
    }

    /** The table a workspace has, or the empty one it would be given. */
    function Room(workspaceId: string): (r: OrderedMap<Widget>)
      reads this
      requires Valid()
      ensures RoomValid(r)
      ensures workspaceId in workspaces ==> r == workspaces[workspaceId]
      ensures workspaceId !in workspaces ==> r == Empty()
    {
      if workspaceId in workspaces then workspaces[workspaceId] else Empty()
    }

    constructor()
      ensures Valid() && workspaces == map[]
    {
      workspaces := map[];
    }

    /** `getWidgetsMap`: the workspace's table, added empty if it had none. */
    method GetWidgetsMap(workspaceId: string) returns (widgets: OrderedMap<Widget>)
      requires Valid()
      modifies this
      ensures Valid()
      ensures workspaces == old(workspaces)[workspaceId := old(Room(workspaceId))]
      ensures widgets == old(Room(workspaceId)) && RoomValid(widgets)
    {
      if workspaceId !in workspaces {
        workspaces := workspaces[workspaceId := Empty()];
      }
      widgets := workspaces[workspaceId];
    }

    /** `create`: stores the widget under its id, replacing any widget with that id, and returns it. */
    method Create(workspaceId: string, createWidgetDto: Widget) returns (r: Widget)
      requires Valid()
      modifies this
      ensures Valid()
      ensures r == createWidgetDto
      ensures workspaces == old(workspaces)[workspaceId := old(Room(workspaceId)).Set(createWidgetDto.widgetId, createWidgetDto)]
    {
      var widgets := GetWidgetsMap(workspaceId);
      widgets := widgets.Set(createWidgetDto.widgetId, createWidgetDto);
      workspaces := workspaces[workspaceId := widgets];
      r := createWidgetDto;
    }

    /** `findAll`: the workspace's widgets in first-insertion order. */
    method FindAll(workspaceId: string) returns (r: seq<Widget>)
      requires Valid()
      modifies this
      ensures Valid()
      ensures workspaces == old(workspaces)[workspaceId := old(Room(workspaceId))]
      ensures r == Room(workspaceId).Values()
    {
      var widgets := GetWidgetsMap(workspaceId);
      r := widgets.Values();
    }

    /** `findOne`: the widget with that id, or NotFound. */
    method FindOne(workspaceId: string, widgetId: string) returns (r: Result<Widget>)
      requires Valid()
      modifies this
      ensures Valid()
      ensures workspaces == old(workspaces)[workspaceId := old(Room(workspaceId))]
      ensures r.Ok? <==> Room(workspaceId).Has(widgetId)
      ensures r.Ok? ==> Room(workspaceId).Get(widgetId) == Some(r.value) && r.value.widgetId == widgetId
      ensures r.Err? ==> r.error == NotFoundException(NotFoundMessage(widgetId))
    {
      var widgets := GetWidgetsMap(workspaceId);
      var widget := widgets.Get(widgetId);
      if widget.None? {
        return Err(NotFoundException(NotFoundMessage(widgetId)));
      }
      r := Ok(widget.value);
    }

    /**
     * `update`: merges the patch into the stored widget, stores the result
     * under the same id (keeping its position in the table) and returns it;
     * NotFound, with nothing changed but the room's creation, if absent.
     */
    method Update(workspaceId: string, updateWidgetDto: UpdateWidgetDto) returns (r: Result<Widget>)
      requires Valid()
      modifies this
      ensures Valid()
      ensures var room, id := old(Room(workspaceId)), updateWidgetDto.widgetId;
              match room.Get(id)
              case None =>
                r == Err(NotFoundException(NotFoundMessage(id))) &&
                workspaces == old(workspaces)[workspaceId := room]
              case Some(existing) =>
                var merged := MergeWidget(existing, updateWidgetDto.data);
                r == Ok(merged) &&
                workspaces == old(workspaces)[workspaceId := room.Set(id, merged)] &&
                Room(workspaceId).keys == room.keys
    {
      var widgets := GetWidgetsMap(workspaceId);
      var existingWidget := widgets.Get(updateWidgetDto.widgetId);
      if existingWidget.None? {
        return Err(NotFoundException(NotFoundMessage(updateWidgetDto.widgetId)));
      }
      var updatedWidget := MergeWidget(existingWidget.value, updateWidgetDto.data);
      widgets := widgets.Set(updateWidgetDto.widgetId, updatedWidget);
      workspaces := workspaces[workspaceId := widgets];
      r := Ok(updatedWidget);
    }

    /** `remove`: deletes the widget and returns its id; NotFound if absent. */
    method Remove(workspaceId: string, widgetId: string) returns (r: Result<Removed>)
      requires Valid()
      modifies this
      ensures Valid()
      ensures var room := old(Room(workspaceId));
              if room.Has(widgetId) then
                r == Ok(Removed(widgetId)) &&
                workspaces == old(workspaces)[workspaceId := room.Delete(widgetId)]
              else
                r == Err(NotFoundException(NotFoundMessage(widgetId))) &&
                workspaces == old(workspaces)[workspaceId := room]
    {
      var widgets := GetWidgetsMap(workspaceId);
      if !widgets.Has(widgetId) {
        return Err(NotFoundException(NotFoundMessage(widgetId)));
      }
      widgets := widgets.Delete(widgetId);
      workspaces := workspaces[workspaceId := widgets];
      r := Ok(Removed(widgetId));
    }
  }

  /** The sticky note the scenarios below store. */
  function Note(): (r: Widget)
    ensures r.widgetId == "w1" && Conforms(r.data.content)
  {
    Widget("w1", PostIt, WidgetData(0, 0, 200, 100, 1, PostItContent("hi", "#fff", 14)))
  }

  /**
   * In a fresh store, a created widget is what `findOne` returns and what
   * `findAll` lists, and a second workspace does not see it.
   */
  method CreateThenFind() returns (created: Widget, found: Result<Widget>, listed: seq<Widget>, elsewhere: seq<Widget>)
    ensures created == Note() && found == Ok(Note()) && listed == [Note()] && elsewhere == []
  {
    var store := new WidgetMemoryService();
    created := store.Create("ws", Note());
    ghost var one := Empty<Widget>().Set("w1", Note());
    assert store.workspaces == map["ws" := one];
    found := store.FindOne("ws", "w1");
    assert store.workspaces == map["ws" := one];
    listed := store.FindAll("ws");
    elsewhere := store.FindAll("other");
  }

  /** Moving a stored widget changes its `x` and nothing else, and `findOne` sees the move. */
  method UpdateMoves() returns (moved: Result<Widget>, found: Result<Widget>)
    ensures moved == found
    ensures moved.Ok? && moved.value == Note().(data := Note().data.(x := 50))
  {
    var store := new WidgetMemoryService();
    var _ := store.Create("ws", Note());
    moved := store.Update("ws", UpdateWidgetDto("w1", EmptyPatch.(x := Some(50))));
    found := store.FindOne("ws", "w1");
  }

  /** After a widget is removed, `findOne` and a second `remove` of it fail with NotFound. */
  method RemoveTwice() returns (removed: Result<Removed>, foundAfter: Result<Widget>, removedAgain: Result<Removed>)
    ensures removed == Ok(Removed("w1"))
    ensures foundAfter == Err(NotFoundException(NotFoundMessage("w1")))
    ensures removedAgain == Err(NotFoundException(NotFoundMessage("w1")))
  {
    var store := new WidgetMemoryService();
    var _ := store.Create("ws", Note());
    removed := store.Remove("ws", "w1");
    assert !store.Room("ws").Has("w1");
    foundAfter := store.FindOne("ws", "w1");
    removedAgain := store.Remove("ws", "w1");
  }
}
