/**
 * The board container: it turns a drop into a status patch, refetches the
 * task list (invalidates the `['tasks']` query) after every successful
 * mutation and every task notification, and connects to the push service
 * while mounted. It keeps no task list of its own.
 */
module TaskBoardContainer {
  import opened Wrappers
  import opened Text
  import opened Domain
  import opened ClientTypes
  import opened TaskWebSocketController
  import opened WebSocketService

  datatype Destination = Destination(droppableId: string)

  /** What the drag-and-drop library reports when a drag ends. */
  datatype DropResult = DropResult(draggableId: string, destination: Option<Destination>)

  /** One partial-update mutation: the id as parsed (absent for NaN) and the patch object. */
  datatype PatchCall = PatchCall(id: Option<int>, patch: map<string, string>)

  /**
   * `handleTaskReorder`: no mutation for a drop outside any column;
   * otherwise one patch for `parseInt(draggableId)` whose only field is the
   * destination column's id as the status, taken as it is.
   */
  function HandleTaskReorder(result: DropResult): (r: Option<PatchCall>)
    ensures r.None? <==> result.destination.None?
    ensures r.Some? ==> r.value.id == ParseInt(result.draggableId)
    ensures r.Some? ==> r.value.patch == map["status" := result.destination.value.droppableId]
  {
    match result.destination
    case None => None
    case Some(d) => Some(PatchCall(ParseInt(result.draggableId), map["status" := d.droppableId]))
  }

  /** A card's draggable id: its task's id as a string. */
  function DraggableId(t: ClientTask): string {
    NumberToString(t.id)
  }

  /**
   * Dropping a card on a column patches that very task, with a status
   * name the backend reads back as the column's status.
   */
  lemma DropPatchesDraggedTask(t: ClientTask, s: Status)
    ensures var r := HandleTaskReorder(DropResult(DraggableId(t), Some(Destination(StatusName(s)))));
      && r == Some(PatchCall(Some(t.id), map["status" := StatusName(s)]))
      && ParseStatus(r.value.patch["status"]) == Some(s)
  {
    ParseIntOfNumberToString(t.id);
    ParseStatusName(s);
  }

  /** Whether a notification makes the board refetch: its type is CREATE, UPDATE or DELETE. */
  predicate Invalidates(n: Payload) {
    "type" in n && n["type"] in NotificationTypes
  }

  /** Every notification the backend sends makes the board refetch. */
  lemma BackendNotificationsInvalidate(task: Task, taskId: Option<int>, now: int)
    ensures Invalidates(NotifyTaskCreated(task, now).payload)
    ensures Invalidates(NotifyTaskUpdated(task, now).payload)
    ensures Invalidates(NotifyTaskDeleted(taskId, now).payload)
  {
  }

  /**
   * What the container renders: nothing while loading or when the answer
   * has no content; otherwise the board over the content. An empty content
   * array still renders the board, since an array is always truthy.
   */
  function Rendered(isLoading: bool, data: Option<PageResponse>): (r: Option<seq<ClientTask>>)
    ensures r.Some? <==> !isLoading && data.Some? && data.value.content.Some?
    ensures r.Some? ==> r.value == data.value.content.value
  {
    if isLoading || data.None? || data.value.content.None? then None else data.value.content
  }

  class TaskBoardContainerState {
    /** How many times the `['tasks']` query has been invalidated. */
    var invalidations: nat
    /** The notification listener subscribed while mounted. */
    var listener: Listener?

    constructor ()
      ensures invalidations == 0 && listener == null
    {
      invalidations, listener := 0, null;
    }

    /** The `onSuccess` of any of the four mutations: it runs only when the mutation succeeded. */
    method OnMutationSettled(succeeded: bool)
      modifies this
      ensures invalidations == old(invalidations) + (if succeeded then 1 else 0)
      ensures listener == old(listener)
    {
      if succeeded {
        invalidations := invalidations + 1;
      }
    }

    /** The listener body: invalidate for the three task types, ignore anything else. */
    method OnNotification(n: Payload)
      modifies this
      ensures invalidations == old(invalidations) + (if Invalidates(n) then 1 else 0)
      ensures listener == old(listener)
    {
      if "type" in n && (n["type"] == Text("CREATE") || n["type"] == Text("UPDATE") || n["type"] == Text("DELETE")) {
        invalidations := invalidations + 1;
      }
    }

    /** The effect: connect, then subscribe a new listener. */
    method Mount(ws: WebSocketServiceImpl)
      modifies this, ws
      ensures listener != null && fresh(listener)
      ensures ws.subscribers == old(ws.subscribers) + [listener]
      ensures ws.client != null && fresh(ws.client) && ws.client.active
      ensures invalidations == old(invalidations)
    {
      ws.Connect();
      var l := new Listener();
      ws.Subscribe(l);
      listener := l;
    }

    /** The effect's cleanup: unsubscribe the listener, then disconnect. */
    method Cleanup(ws: WebSocketServiceImpl)
      requires listener != null
      modifies ws, ws.client
      ensures ws.subscribers == Without<Listener>(old(ws.subscribers), listener)
      ensures ws.client == null
      ensures old(ws.client) != null ==> !old(ws.client).active
    {
      ws.Unsubscribe(listener);
      ws.Disconnect();
    }
  }
}
