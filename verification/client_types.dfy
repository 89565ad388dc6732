/**
 * The client's view of the data: a task as the board receives it and the
 * shape a push notification is declared to have.
 */
module ClientTypes {
  import opened Wrappers
  import opened Domain
  import opened TaskWebSocketController

  /** A task as the board holds it: every field but the version is present. */
  datatype ClientTask = ClientTask(
    id: int,
    title: string,
    description: string,
    status: Status,
    priority: Priority,
    version: Option<int>)

  /** One page as the list endpoint returns it; `content` may be missing from a malformed answer. */
  datatype PageResponse = PageResponse(content: Option<seq<ClientTask>>, totalElements: int)

  /** The three notification types the client declares. */
  const NotificationTypes: set<Value> := {Text("CREATE"), Text("UPDATE"), Text("DELETE")}

  /**
   * A parsed notification fits the declared type: a `type` of CREATE,
   * UPDATE or DELETE, a timestamp, an optional task and an optional task
   * id, and no other key. (The declared timestamp type is a string; the
   * backend sends a number, which the client never reads.)
   */
  predicate IsTaskNotification(p: Payload) {
    && p.Keys <= {"type", "task", "taskId", "timestamp"}
    && "type" in p && p["type"] in NotificationTypes
    && "timestamp" in p
    && ("task" in p ==> p["task"].TaskValue?)
    && ("taskId" in p ==> p["taskId"].TaskIdValue?)
  }

  /** Every notification the backend sends fits the client's declared type. */
  lemma BackendNotificationsConform(task: Task, taskId: Option<int>, now: int)
    ensures IsTaskNotification(NotifyTaskCreated(task, now).payload)
    ensures IsTaskNotification(NotifyTaskUpdated(task, now).payload)
    ensures IsTaskNotification(NotifyTaskDeleted(taskId, now).payload)
  {
  }
}
