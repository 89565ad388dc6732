/**
 * The values shared by the backend and the board: task status and priority
 * (the same enum names on both sides), the backend's task record, and the
 * Java exceptions that the core throws, catches or translates.
 */
module Domain {
  import opened Wrappers

  datatype Status = ToDo | InProgress | Done
  datatype Priority = Low | Med | High

  /** `Object.values(Status)` and the Java enum: declaration order. */
  const StatusValues: seq<Status> := [ToDo, InProgress, Done]

  /** The enum constant's name, as it travels in JSON, URLs and drop targets. */
  function StatusName(s: Status): string {
    match s
    case ToDo => "TO_DO"
    case InProgress => "IN_PROGRESS"
    case Done => "DONE"
  }

  /** Enum lookup by name (`Status.valueOf`); `None` for any other string. */
  function ParseStatus(name: string): (r: Option<Status>)
    ensures r.Some? ==> StatusName(r.value) == name
  {
    if name == "TO_DO" then Some(ToDo)
    else if name == "IN_PROGRESS" then Some(InProgress)
    else if name == "DONE" then Some(Done)
    else None
  }

  function PriorityName(p: Priority): string {
    match p
    case Low => "LOW"
    case Med => "MED"
    case High => "HIGH"
  }

  function ParsePriority(name: string): (r: Option<Priority>)
    ensures r.Some? ==> PriorityName(r.value) == name
  {
    if name == "LOW" then Some(Low)
    else if name == "MED" then Some(Med)
    else if name == "HIGH" then Some(High)
    else None
  }

  /** Reading a status back by its name gives the same status. */
  lemma ParseStatusName(s: Status)
    ensures ParseStatus(StatusName(s)) == Some(s)
  {
  }

  lemma ParsePriorityName(p: Priority)
    ensures ParsePriority(PriorityName(p)) == Some(p)
  {
  }

  /**
   * A task as the backend holds it, entity and DTO alike: every field is a
   * Java reference and may be null. Ids and versions are Java `Long`s,
   * modelled as unbounded integers.
   */
  datatype Task = Task(
    id: Option<int>,
    version: Option<int>,
    title: Option<string>,
    description: Option<string>,
    status: Option<Status>,
    priority: Option<Priority>)

  /** The Java exception classes the core distinguishes. */
  datatype ExceptionKind =
    | EntityNotFound            // jakarta.persistence.EntityNotFoundException
    | OptimisticLock            // jakarta.persistence.OptimisticLockException
    | OptimisticLockingFailure  // org.springframework.dao.OptimisticLockingFailureException
    | Jwt                       // io.jsonwebtoken.JwtException and its subclasses
    | IndexOutOfBounds          // java.lang.ArrayIndexOutOfBoundsException
    | Runtime                   // any other RuntimeException
    | IO                        // java.io.IOException (checked)
    | Servlet                   // jakarta.servlet.ServletException (checked)

  /** A thrown exception: its class and `getMessage()`, which may be null. */
  datatype Exception = Exception(kind: ExceptionKind, message: Option<string>)

  /** The checked exceptions; every other kind extends RuntimeException. */
  predicate IsChecked(k: ExceptionKind) {
    k == IO || k == Servlet
  }

  /** The two optimistic-locking exceptions that the task service catches together. */
  predicate IsLockFailure(k: ExceptionKind) {
    k == OptimisticLock || k == OptimisticLockingFailure
  }

  /** String concatenation of a possibly null message, as Java's `+` renders it. */
  function MessageText(message: Option<string>): string {
    message.GetOr("null")
  }
}
