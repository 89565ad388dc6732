/**
 * The REST handlers under `/api/tasks`. Every handler body runs only when
 * the rate limiter lets the request through; what the repository and the
 * merge-patch step answer are parameters.
 */
module TaskController {
  import opened Wrappers
  import opened Domain
  import opened RateLimiter
  import opened TaskService
  import opened TaskWebSocketController

  const HttpOk: int := 200
  const HttpCreated: int := 201
  const HttpNoContent: int := 204
  const HttpForbidden: int := 403
  const HttpNotFound: int := 404
  const HttpUnsupportedMediaType: int := 415
  const HttpTooManyRequests: int := 429

  /** The only content type the PATCH handler consumes. */
  const PatchMediaType: string := "application/mergepatch+json"

  const DefaultPage: int := 0
  const DefaultSize: int := 10

  /** One page of the store's answer to a query. */
  datatype Page = Page(content: seq<Task>, totalElements: int)

  /** The link to `getTaskById` for an id; its rendering as a URI is left to the framework. */
  datatype Link = TaskLink(id: Option<int>)

  datatype Body = NoBody | TaskPage(page: Page) | TaskModel(task: Task)

  datatype ResponseEntity = ResponseEntity(status: int, body: Body, location: Option<Link>)

  /** The empty response `performIfAllowed` answers with instead of running the handler body. */
  function Refusal(a: Admission): (r: ResponseEntity)
    requires a != Allowed
    ensures r.body == NoBody && r.location.None?
    ensures a == Forbidden <==> r.status == 403
    ensures a == TooManyRequests <==> r.status == 429
  {
    ResponseEntity(if a == Forbidden then HttpForbidden else HttpTooManyRequests, NoBody, None)
  }

  function Ok(body: Body): ResponseEntity {
    ResponseEntity(HttpOk, body, None)
  }

  const NotFound := ResponseEntity(HttpNotFound, NoBody, None)

  /**
   * `GET /api/tasks`: absent page and size default to 0 and 10; the raw
   * sort string goes to `buildPageable`; the page of the selected query is
   * returned with 200.
   */
  method GetAllTasks(limiter: RateLimiterServiceImpl, service: TaskServiceImpl, clientIp: Option<string>,
                     store: Query -> Page, status: Option<Status>, priority: Option<Priority>,
                     page: Option<int>, size: Option<int>, sortParam: Option<string>)
    returns (r: Result<ResponseEntity, Exception>)
    requires limiter.Valid()
    modifies limiter, service
    ensures limiter.Valid() && limiter.buckets == Admit(old(limiter.buckets), clientIp).1
    ensures Admit(old(limiter.buckets), clientIp).0 != Allowed ==>
      r == Success(Refusal(Admit(old(limiter.buckets), clientIp).0)) && unchanged(service)
    ensures Admit(old(limiter.buckets), clientIp).0 == Allowed ==>
      match PageableOf(page.GetOr(DefaultPage), size.GetOr(DefaultSize), sortParam)
      case Failure(e) => r == Failure(e) && unchanged(service)
      case Success(p) =>
        && r == Success(Ok(TaskPage(store(SelectQuery(status, priority, p)))))
        && service.cacheMisses == old(service.cacheMisses) + 1
        && service.writes == old(service.writes) && service.outbox == old(service.outbox)
  {
    var a := limiter.PerformIfAllowed(clientIp);
    if a != Allowed {
      return Success(Refusal(a));
    }
    var pageable := BuildPageable(page.GetOr(DefaultPage), size.GetOr(DefaultSize), sortParam);
    if pageable.Failure? {
      return Failure(pageable.error);
    }
    var q := service.GetTasks(status, priority, pageable.value);
    r := Success(Ok(TaskPage(store(q))));
  }

  /** `GET /api/tasks/{id}`: 200 with the task the store finds for the id, 404 when it finds none. */
  method GetTaskById(limiter: RateLimiterServiceImpl, clientIp: Option<string>, id: Option<int>, found: Option<Task>)
    returns (r: ResponseEntity)
    requires limiter.Valid()
    modifies limiter
    ensures limiter.Valid() && limiter.buckets == Admit(old(limiter.buckets), clientIp).1
    ensures Admit(old(limiter.buckets), clientIp).0 != Allowed ==> r == Refusal(Admit(old(limiter.buckets), clientIp).0)
    ensures Admit(old(limiter.buckets), clientIp).0 == Allowed ==>
      r == if found.Some? then Ok(TaskModel(found.value)) else NotFound
  {
    var a := limiter.PerformIfAllowed(clientIp);
    if a != Allowed {
      return Refusal(a);
    }
    r := if found.Some? then Ok(TaskModel(found.value)) else NotFound;
  }

  /** `POST /api/tasks`: 201, located at the created task's id, with the created task as body. */
  method CreateTask(limiter: RateLimiterServiceImpl, service: TaskServiceImpl, clientIp: Option<string>,
                    task: Task, save: Result<Task, Exception>, now: int)
    returns (r: Result<ResponseEntity, Exception>)
    requires limiter.Valid()
    modifies limiter, service
    ensures limiter.Valid() && limiter.buckets == Admit(old(limiter.buckets), clientIp).1
    ensures Admit(old(limiter.buckets), clientIp).0 != Allowed ==>
      r == Success(Refusal(Admit(old(limiter.buckets), clientIp).0)) && unchanged(service)
    ensures Admit(old(limiter.buckets), clientIp).0 == Allowed ==>
      && service.writes == old(service.writes) + [Save(task)]
      && (save.Success? ==>
            && r == Success(ResponseEntity(HttpCreated, TaskModel(save.value), Some(TaskLink(save.value.id))))
            && service.outbox == old(service.outbox) + [NotifyTaskCreated(save.value, now)])
      && (save.Failure? ==> r == Failure(save.error) && service.outbox == old(service.outbox))
      && service.cacheMisses == old(service.cacheMisses)
  {
    var a := limiter.PerformIfAllowed(clientIp);
    if a != Allowed {
      return Success(Refusal(a));
    }
    var created := service.CreateTask(task, save, now);
    if created.Failure? {
      return Failure(created.error);
    }
    r := Success(ResponseEntity(HttpCreated, TaskModel(created.value), Some(TaskLink(created.value.id))));
  }

  /**
   * `PUT /api/tasks/{id}`: the path id is ignored; the body task is
   * updated as given (its own id decides which row) and returned with 200.
   */
  method UpdateTask(limiter: RateLimiterServiceImpl, service: TaskServiceImpl, clientIp: Option<string>,
                    id: Option<int>, task: Task, save: Result<Task, Exception>, now: int)
    returns (r: Result<ResponseEntity, Exception>)
    requires limiter.Valid()
    modifies limiter, service
    ensures limiter.Valid() && limiter.buckets == Admit(old(limiter.buckets), clientIp).1
    ensures Admit(old(limiter.buckets), clientIp).0 != Allowed ==>
      r == Success(Refusal(Admit(old(limiter.buckets), clientIp).0)) && unchanged(service)
    ensures Admit(old(limiter.buckets), clientIp).0 == Allowed ==>
      && service.writes == old(service.writes) + [Save(task)]
      && r == (if save.Success? then Success(Ok(TaskModel(save.value))) else Failure(Translate(save.error, UpdateConflictMessage)))
      && service.outbox == old(service.outbox) + (if save.Success? then [NotifyTaskUpdated(save.value, now)] else [])
      && service.cacheMisses == old(service.cacheMisses)
  {
    var a := limiter.PerformIfAllowed(clientIp);
    if a != Allowed {
      return Success(Refusal(a));
    }
    var updated := service.UpdateTask(task, save, now);
    if updated.Failure? {
      return Failure(updated.error);
    }
    r := Success(Ok(TaskModel(updated.value)));
  }

  /**
   * `PATCH /api/tasks/{id}`: a request of any other content type is
   * answered 415 before the handler (and the limiter) runs. A missing task
   * gives 404 with no merge and no save; otherwise the merged task is
   * saved and returned with 200.
   */
  method PartialUpdateTask(limiter: RateLimiterServiceImpl, service: TaskServiceImpl, clientIp: Option<string>,
                           contentType: Option<string>, id: Option<int>, found: Option<Task>,
                           patched: Result<Task, Exception>, save: Result<Task, Exception>, now: int)
    returns (r: Result<ResponseEntity, Exception>)
    requires limiter.Valid()
    modifies limiter, service
    ensures limiter.Valid()
    ensures contentType != Some(PatchMediaType) ==>
      r == Success(ResponseEntity(HttpUnsupportedMediaType, NoBody, None))
      && unchanged(service) && limiter.buckets == old(limiter.buckets)
    ensures contentType == Some(PatchMediaType) ==> limiter.buckets == Admit(old(limiter.buckets), clientIp).1
    ensures contentType == Some(PatchMediaType) && Admit(old(limiter.buckets), clientIp).0 != Allowed ==>
      r == Success(Refusal(Admit(old(limiter.buckets), clientIp).0)) && unchanged(service)
    ensures contentType == Some(PatchMediaType) && Admit(old(limiter.buckets), clientIp).0 == Allowed && found.None? ==>
      r == Success(NotFound) && unchanged(service)
    ensures contentType == Some(PatchMediaType) && Admit(old(limiter.buckets), clientIp).0 == Allowed && found.Some? ==>
      && service.writes == old(service.writes) + (if patched.Success? then [Save(patched.value)] else [])
      && r == (if patched.Failure? then Failure(Translate(patched.error, PatchConflictMessage))
               else if save.Failure? then Failure(Translate(save.error, PatchConflictMessage))
               else Success(Ok(TaskModel(save.value))))
      && service.outbox == old(service.outbox) + (if patched.Success? && save.Success? then [NotifyTaskUpdated(save.value, now)] else [])
      && service.cacheMisses == old(service.cacheMisses)
  {
    if contentType != Some(PatchMediaType) {
      return Success(ResponseEntity(HttpUnsupportedMediaType, NoBody, None));
    }
    var a := limiter.PerformIfAllowed(clientIp);
    if a != Allowed {
      return Success(Refusal(a));
    }
    if found.None? {
      return Success(NotFound);
    }
    // The service already wraps IOExceptions, so the handler's own catch never fires.
    var updated := service.PartialUpdateTask(patched, save, now);
    if updated.Failure? {
      return Failure(updated.error);
    }
    r := Success(Ok(TaskModel(updated.value)));
  }

  /** `DELETE /api/tasks/{id}`: 204 with no body once the delete completes. */
  method DeleteTask(limiter: RateLimiterServiceImpl, service: TaskServiceImpl, clientIp: Option<string>,
                    id: Option<int>, deleted: Result<(), Exception>, now: int)
    returns (r: Result<ResponseEntity, Exception>)
    requires limiter.Valid()
    modifies limiter, service
    ensures limiter.Valid() && limiter.buckets == Admit(old(limiter.buckets), clientIp).1
    ensures Admit(old(limiter.buckets), clientIp).0 != Allowed ==>
      r == Success(Refusal(Admit(old(limiter.buckets), clientIp).0)) && unchanged(service)
    ensures Admit(old(limiter.buckets), clientIp).0 == Allowed ==>
      && service.writes == old(service.writes) + [DeleteById(id)]
      && r == (if deleted.Success? then Success(ResponseEntity(HttpNoContent, NoBody, None))
               else Failure(Translate(deleted.error, DeleteConflictMessage)))
      && service.outbox == old(service.outbox) + (if deleted.Success? then [NotifyTaskDeleted(id, now)] else [])
      && service.cacheMisses == old(service.cacheMisses)
  {
    var a := limiter.PerformIfAllowed(clientIp);
    if a != Allowed {
      return Success(Refusal(a));
    }
    var done := service.DeleteTask(id, deleted, now);
    if done.Failure? {
      return Failure(done.error);
    }
    r := Success(ResponseEntity(HttpNoContent, NoBody, None));
  }
}
