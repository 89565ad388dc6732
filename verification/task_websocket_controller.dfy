/**
 * The push notifications the backend sends after each successful change:
 * a fresh map per notification, handed to the STOMP broker for the topic
 * "/topic/tasks". The clock reading `new Date()` is a parameter.
 */
module TaskWebSocketController {
  import opened Wrappers
  import opened Domain

  const Topic := "/topic/tasks"

  /** The values the notification maps hold. */
  datatype Value =
    | Text(text: string)
    | TaskValue(task: Task)
    | TaskIdValue(taskId: Option<int>)
    | Timestamp(millis: int)

  type Payload = map<string, Value>

  /** One `convertAndSend(destination, payload)` call. */
  datatype Message = Message(destination: string, payload: Payload)

  /** `createNotification(type, task)`: the shape of CREATE and UPDATE notifications. */
  function CreateNotification(kind: string, task: Task, now: int): (p: Payload)
    ensures p.Keys == {"type", "task", "timestamp"}
    ensures p["type"] == Text(kind) && p["task"] == TaskValue(task)
  {
    map["type" := Text(kind), "task" := TaskValue(task), "timestamp" := Timestamp(now)]
  }

  function NotifyTaskCreated(task: Task, now: int): (m: Message)
    ensures m.destination == Topic
    ensures m.payload.Keys == {"type", "task", "timestamp"}
    ensures m.payload["type"] == Text("CREATE") && m.payload["task"] == TaskValue(task)
  {
    Message(Topic, CreateNotification("CREATE", task, now))
  }

  function NotifyTaskUpdated(task: Task, now: int): (m: Message)
    ensures m.destination == Topic
    ensures m.payload.Keys == {"type", "task", "timestamp"}
    ensures m.payload["type"] == Text("UPDATE") && m.payload["task"] == TaskValue(task)
  {
    Message(Topic, CreateNotification("UPDATE", task, now))
  }

  /** A deletion carries only the id, under "taskId", and no "task" entry. */
  function NotifyTaskDeleted(taskId: Option<int>, now: int): (m: Message)
    ensures m.destination == Topic
    ensures m.payload.Keys == {"type", "taskId", "timestamp"} && "task" !in m.payload
    ensures m.payload["type"] == Text("DELETE") && m.payload["taskId"] == TaskIdValue(taskId)
  {
    Message(Topic, map["type" := Text("DELETE"), "taskId" := TaskIdValue(taskId), "timestamp" := Timestamp(now)])
  }
}
