/**
 * The GraphQL resolvers: the `tasks` query, and the `createTask`,
 * `updateTask` and `deleteTask` mutations. `updateTask` edits the stored
 * task field by field through its setters before saving it.
 */
module TaskGraphQLController {
  import opened Wrappers
  import opened Domain
  import opened TaskService
  import opened TaskWebSocketController
  import TaskController

  /** The task entity as the resolvers handle it: fields set one at a time. */
  class TaskEntity {
    var id: Option<int>
    var version: Option<int>
    var title: Option<string>
    var description: Option<string>
    var status: Option<Status>
    var priority: Option<Priority>

    function Value(): Task
      reads this
    {
      Task(id, version, title, description, status, priority)
    }

    /** `new Task()`: every field null. */
    constructor ()
      ensures Value() == Task(None, None, None, None, None, None)
    {
      id, version, title, description, status, priority := None, None, None, None, None, None;
    }

    /** `TaskAutoMapper.convertToEntity`: a copy of the stored task. */
    constructor FromTask(t: Task)
      ensures Value() == t
    {
      id, version, title, description, status, priority := t.id, t.version, t.title, t.description, t.status, t.priority;
    }

    method SetTitle(v: Option<string>)
      modifies this
      ensures Value() == old(Value()).(title := v)
    {
      title := v;
    }

    method SetDescription(v: Option<string>)
      modifies this
      ensures Value() == old(Value()).(description := v)
    {
      description := v;
    }

    method SetStatus(v: Option<Status>)
      modifies this
      ensures Value() == old(Value()).(status := v)
    {
      status := v;
    }

    method SetPriority(v: Option<Priority>)
      modifies this
      ensures Value() == old(Value()).(priority := v)
    {
      priority := v;
    }
  }

  /** Field by field: a given argument wins, a null one keeps what is there. */
  function Pick<T>(given: Option<T>, existing: Option<T>): (r: Option<T>)
    ensures given.Some? ==> r == given
    ensures given.None? ==> r == existing
  {
    if given.Some? then given else existing
  }

  /**
   * The task `updateTask` saves: each non-null argument replaces its field,
   * each null one keeps the stored value; id and version always come from
   * the stored task.
   */
  function Merged(existing: Task, title: Option<string>, description: Option<string>,
                  status: Option<Status>, priority: Option<Priority>): (r: Task)
    ensures r.id == existing.id && r.version == existing.version
    ensures r.title == Pick(title, existing.title) && r.description == Pick(description, existing.description)
    ensures r.status == Pick(status, existing.status) && r.priority == Pick(priority, existing.priority)
  {
    existing.(title := Pick(title, existing.title), description := Pick(description, existing.description),
              status := Pick(status, existing.status), priority := Pick(priority, existing.priority))
  }

  /** All-null arguments leave the stored task as it is. */
  lemma MergeNothing(existing: Task)
    ensures Merged(existing, None, None, None, None) == existing
  {
  }

  /** Applying the same arguments twice is applying them once. */
  lemma MergeIdempotent(e: Task, t: Option<string>, d: Option<string>, s: Option<Status>, p: Option<Priority>)
    ensures Merged(Merged(e, t, d, s, p), t, d, s, p) == Merged(e, t, d, s, p)
  {
  }

  /** Two updates in a row are one update whose arguments are the later ones over the earlier ones. */
  lemma MergeTwice(e: Task, t1: Option<string>, d1: Option<string>, s1: Option<Status>, p1: Option<Priority>,
                   t2: Option<string>, d2: Option<string>, s2: Option<Status>, p2: Option<Priority>)
    ensures Merged(Merged(e, t1, d1, s1, p1), t2, d2, s2, p2)
         == Merged(e, Pick(t2, t1), Pick(d2, d1), Pick(s2, s1), Pick(p2, p1))
  {
  }

  /**
   * The `tasks` query: null page and size default to 0 and 10, the sort is
   * always null (so "id" ascending), and only the page's content is returned.
   */
  method Tasks(service: TaskServiceImpl, store: Query -> TaskController.Page, status: Option<Status>,
               priority: Option<Priority>, page: Option<int>, size: Option<int>)
    returns (r: seq<Task>)
    modifies service
    ensures r == store(SelectQuery(status, priority, PageRequest(page.GetOr(0), size.GetOr(10), [Order("id", Asc)]))).content
    ensures service.cacheMisses == old(service.cacheMisses) + 1
    ensures service.writes == old(service.writes) && service.outbox == old(service.outbox)
  {
    var pageable := BuildPageable(if page.Some? then page.value else 0, if size.Some? then size.value else 10, None);
    DefaultSort(page.GetOr(0), size.GetOr(10), None);
    var q := service.GetTasks(status, priority, pageable.value);
    r := store(q).content;
  }

  /** `createTask`: a fresh task holding the four arguments, nulls included, and nothing else. */
  method CreateTask(service: TaskServiceImpl, title: Option<string>, description: Option<string>,
                    status: Option<Status>, priority: Option<Priority>, save: Result<Task, Exception>, now: int)
    returns (r: Result<Task, Exception>)
    modifies service
    ensures service.writes == old(service.writes) + [Save(Task(None, None, title, description, status, priority))]
    ensures r == save
    ensures service.outbox == old(service.outbox) + (if save.Success? then [NotifyTaskCreated(save.value, now)] else [])
    ensures service.cacheMisses == old(service.cacheMisses)
  {
    var task := new TaskEntity();
    task.SetTitle(title);
    task.SetDescription(description);
    task.SetStatus(status);
    task.SetPriority(priority);
    r := service.CreateTask(task.Value(), save, now);
  }

  /**
   * `updateTask`: null, with no update at all, when the id is unknown;
   * otherwise the stored task merged with the arguments is updated.
   */
  method UpdateTask(service: TaskServiceImpl, id: Option<int>, found: Option<Task>,
                    title: Option<string>, description: Option<string>, status: Option<Status>,
                    priority: Option<Priority>, save: Result<Task, Exception>, now: int)
    returns (r: Result<Option<Task>, Exception>)
    modifies service
    ensures found.None? ==> r == Success(None) && unchanged(service)
    ensures found.Some? ==>
      && service.writes == old(service.writes) + [Save(Merged(found.value, title, description, status, priority))]
      && r == (if save.Success? then Success(Some(save.value)) else Failure(Translate(save.error, UpdateConflictMessage)))
      && service.outbox == old(service.outbox) + (if save.Success? then [NotifyTaskUpdated(save.value, now)] else [])
      && service.cacheMisses == old(service.cacheMisses)
  {
    if found.None? {
      return Success(None);
    }
    var task := new TaskEntity.FromTask(found.value);
    if title.Some? { task.SetTitle(title); }
    if description.Some? { task.SetDescription(description); }
    if status.Some? { task.SetStatus(status); }
    if priority.Some? { task.SetPriority(priority); }
    var updated := service.UpdateTask(task.Value(), save, now);
    if updated.Failure? {
      return Failure(updated.error);
    }
    r := Success(Some(updated.value));
  }

  /** `deleteTask`: true exactly when the service call completes; any exception gives false. */
  method DeleteTask(service: TaskServiceImpl, id: Option<int>, deleted: Result<(), Exception>, now: int)
    returns (r: bool)
    modifies service
    ensures r <==> deleted.Success?
    ensures service.writes == old(service.writes) + [DeleteById(id)]
    ensures service.outbox == old(service.outbox) + (if deleted.Success? then [NotifyTaskDeleted(id, now)] else [])
    ensures service.cacheMisses == old(service.cacheMisses)
  {
    var done := service.DeleteTask(id, deleted, now);
    r := done.Success?;
  }
}
