/**
 * The task service: the sort-string parser behind `buildPageable`, the
 * choice of repository query in `getTasks`, and the create / update /
 * partial update / delete sequences (store, then notify; translate
 * optimistic-lock failures). The repository is an abstract store: what it
 * returns is a parameter, and the service records the calls it makes.
 */
module TaskService {
  import opened Wrappers
  import opened Text
  import opened Domain
  import opened TaskWebSocketController

  datatype Direction = Asc | Desc
  datatype Order = Order(property: string, direction: Direction)

  /** `PageRequest.of(page, size, Sort.by(orders))`. */
  datatype Pageable = PageRequest(page: int, size: int, orders: seq<Order>)

  /** `Sort.by(Sort.Direction.ASC, "id")`, used when no sort string is given. */
  const DefaultOrder := Order("id", Asc)

  /** What `parts[0]` throws on an empty array. */
  const NoFirstPiece := Exception(IndexOutOfBounds, Some("Index 0 out of bounds for length 0"))

  // ------------------------------------------------------------------
  // buildPageable
  // ------------------------------------------------------------------

  /** `s.equalsIgnoreCase("desc")`. */
  predicate IsDesc(s: string) {
    EqualsIgnoreCase(s, "desc")
  }

  /** The loop body of `buildPageable` for one `;`-separated criterion. */
  function ParseCriterion(criterion: string): (r: Result<Order, Exception>)
    ensures r.Failure? ==> r.error == NoFirstPiece
  {
    if ',' in criterion then
      var parts := Split(criterion, ',');
      if |parts| == 0 then Failure(NoFirstPiece)
      else
        var property := Trim(parts[0]);
        if |parts| > 1 && IsDesc(Trim(parts[1])) then Success(Order(property, Desc))
        else Success(Order(property, Asc))
    else
      Success(Order(Trim(criterion), Asc))
  }

  /** A criterion without a comma sorts ascending on its trimmed text. */
  lemma CriterionWithoutComma(criterion: string)
    requires ',' !in criterion
    ensures ParseCriterion(criterion) == Success(Order(Trim(criterion), Asc))
  {
  }

  /**
   * A criterion `p,d` followed by nothing or by further comma-separated
   * pieces: it fails exactly when it is made of commas alone; otherwise the
   * property is `p` trimmed, the direction is descending exactly when `d`
   * trimmed equals "desc" ignoring case, and the further pieces are ignored.
   */
  lemma CriterionWithComma(p: string, d: string, rest: string)
    requires ',' !in p && ',' !in d
    requires rest == [] || rest[0] == ','
    ensures var c := p + [','] + d + rest;
      && (ParseCriterion(c).Failure? <==> forall k :: 0 <= k < |c| ==> c[k] == ',')
      && (ParseCriterion(c).Success? ==>
            ParseCriterion(c).value ==
            Order(Trim(p), if IsDesc(Trim(d)) then Desc else Asc))
  {
    var c := p + [','] + d + rest;
    assert c == p + [','] + (d + rest);
    PiecesAfterSeparator(p, d + rest, ',');
    PiecesOfConcat(d, rest, ',');
    var pr := Pieces(rest, ',');
    if rest == [] {
      assert pr == [[]];
    } else {
      assert pr[0] == [];
    }
    assert d + pr[0] == d;
    var ps := Pieces(c, ',');
    assert ps[0] == p && ps[1] == d;
    assert ',' in c by { assert c[|p|] == ','; }
    SplitEmptyIffOnlySeparators(c, ',');
    var parts := Split(c, ',');
    if parts != [] {
      assert parts[0] == p;
      if |parts| > 1 {
        assert parts[1] == d;
      } else {
        assert d == [];
      }
    }
  }

  /** A criterion made of commas only has no first piece, so it throws. */
  lemma CommasOnlyCriterionThrows(criterion: string)
    requires criterion != [] && forall k :: 0 <= k < |criterion| ==> criterion[k] == ','
    ensures ParseCriterion(criterion) == Failure(NoFirstPiece)
  {
    assert criterion[0] == ',';
    SplitEmptyIffOnlySeparators(criterion, ',');
  }

  /**
   * The orders of a list of criteria, in order; the first criterion that
   * throws ends the whole call.
   */
  function ParseCriteria(criteria: seq<string>): (r: Result<seq<Order>, Exception>)
    ensures r.Success? <==> forall k :: 0 <= k < |criteria| ==> ParseCriterion(criteria[k]).Success?
    ensures r.Success? ==> |r.value| == |criteria|
    ensures r.Success? ==> ParsedEach(criteria, r.value)
    ensures r.Failure? ==> r.error == NoFirstPiece
  {
    if criteria == [] then Success([])
    else
      match ParseCriterion(criteria[0])
      case Failure(e) => Failure(e)
      case Success(o) =>
        match ParseCriteria(criteria[1..])
        case Failure(e) => Failure(e)
        case Success(rest) =>
          assert criteria == [criteria[0]] + criteria[1..];
          InStepCons(criteria[0], o, criteria[1..], rest, ParseCriterion);
          Success([o] + rest)
  }

  /** `orders` holds, position by position, the order of each criterion. */
  ghost predicate ParsedEach(criteria: seq<string>, orders: seq<Order>) {
    InStep(criteria, orders, ParseCriterion)
  }

  /** The loop step of `buildPageable`: one more criterion parsed. */
  lemma ParsedEachExtend(criteria: seq<string>, i: nat, orders: seq<Order>, o: Order)
    requires i < |criteria|
    requires ParsedEach(criteria[..i], orders)
    requires ParseCriterion(criteria[i]) == Success(o)
    ensures ParsedEach(criteria[..i + 1], orders + [o])
  {
    InStepExtend(criteria, i, orders, o, ParseCriterion);
  }

  lemma ParsedEachCriteria(criteria: seq<string>, orders: seq<Order>)
    requires ParsedEach(criteria, orders)
    ensures ParseCriteria(criteria) == Success(orders)
  {
    var r := ParseCriteria(criteria);
    assert r.Success?;
    assert r.value == orders;
  }

  /**
   * The sort `buildPageable` builds: one order per `;`-separated criterion
   * when the sort string is present and non-empty, otherwise ascending "id".
   */
  function SortOrders(sortParam: Option<string>): Result<seq<Order>, Exception> {
    if sortParam.Some? && sortParam.value != "" then ParseCriteria(Split(sortParam.value, ';'))
    else Success([DefaultOrder])
  }

  /** The result of `buildPageable(page, size, sortParam)`; page and size pass through unchanged. */
  function PageableOf(page: int, size: int, sortParam: Option<string>): (r: Result<Pageable, Exception>)
    ensures r.Success? ==> r.value.page == page && r.value.size == size
    ensures r.Success? <==> SortOrders(sortParam).Success?
  {
    match SortOrders(sortParam)
    case Failure(e) => Failure(e)
    case Success(orders) => Success(PageRequest(page, size, orders))
  }

  /** `buildPageable`: the loop appends one order per criterion to `orders`. */
  method BuildPageable(page: int, size: int, sortParam: Option<string>) returns (r: Result<Pageable, Exception>)
    ensures r == PageableOf(page, size, sortParam)
  {
    if sortParam.Some? && sortParam.value != "" {
      var sortCriteria := Split(sortParam.value, ';');
      var orders: seq<Order> := [];
      for i := 0 to |sortCriteria|
        invariant ParsedEach(sortCriteria[..i], orders)
      {
        var parsed := ParseCriterion(sortCriteria[i]);
        if parsed.Failure? {
          return Failure(parsed.error);
        }
        ParsedEachExtend(sortCriteria, i, orders, parsed.value);
        orders := orders + [parsed.value];
      }
      assert sortCriteria[..|sortCriteria|] == sortCriteria;
      ParsedEachCriteria(sortCriteria, orders);
      return Success(PageRequest(page, size, orders));
    } else {
      return Success(PageRequest(page, size, [DefaultOrder]));
    }
  }

  /** A missing or empty sort string sorts ascending on "id", and nothing else. */
  lemma DefaultSort(page: int, size: int, sortParam: Option<string>)
    requires sortParam.None? || sortParam == Some("")
    ensures PageableOf(page, size, sortParam) == Success(PageRequest(page, size, [Order("id", Asc)]))
  {
  }

  /**
   * A sort string made of `;` alone passes the emptiness check, but splits
   * into no criterion at all: the sort is empty, not the "id" default.
   */
  lemma OnlySemicolonsGiveNoOrder(page: int, size: int, s: string)
    requires s != [] && forall k :: 0 <= k < |s| ==> s[k] == ';'
    ensures PageableOf(page, size, Some(s)) == Success(PageRequest(page, size, []))
  {
    SplitEmptyIffOnlySeparators(s, ';');
  }

  /** A criterion `p,d` with both pieces free of commas and of surrounding blanks. */
  lemma PlainCriterion(p: string, d: string)
    requires ',' !in p && ',' !in d && p != [] && d != []
    requires !IsTrimmable(p[0]) && !IsTrimmable(p[|p| - 1]) && !IsTrimmable(d[0]) && !IsTrimmable(d[|d| - 1])
    ensures ParseCriterion(p + [','] + d) == Success(Order(p, if IsDesc(d) then Desc else Asc))
  {
    assert p + [','] + d + [] == p + [','] + d;
    CriterionWithComma(p, d, []);
    TrimUntrimmed(p);
    TrimUntrimmed(d);
    assert (p + [','] + d)[0] == p[0];
  }

  /**
   * A sort string glued from `;`-free criteria, the last one non-empty,
   * sorts by one order per criterion, in the order given.
   */
  lemma CriteriaInOrder(page: int, size: int, criteria: seq<string>)
    requires |criteria| >= 1 && criteria[|criteria| - 1] != []
    requires forall k :: 0 <= k < |criteria| ==> ';' !in criteria[k]
    ensures PageableOf(page, size, Some(Join(criteria, ';'))).Success? <==> ParseCriteria(criteria).Success?
    ensures ParseCriteria(criteria).Success? ==>
      PageableOf(page, size, Some(Join(criteria, ';'))) == Success(PageRequest(page, size, ParseCriteria(criteria).value))
  {
    var joined := Join(criteria, ';');
    SplitOfJoin(criteria, ';');
    SplitEmptyIffOnlySeparators(joined, ';');
    assert joined != [];
    assert SortOrders(Some(joined)) == ParseCriteria(criteria);
  }

  // ------------------------------------------------------------------
  // getTasks: which repository query runs
  // ------------------------------------------------------------------

  datatype Query =
    | FindByStatusAndPriority(status: Status, priority: Priority, pageable: Pageable)
    | FindByStatus(status: Status, pageable: Pageable)
    | FindByPriority(priority: Priority, pageable: Pageable)
    | FindAll(pageable: Pageable)

  /** The filters a query applies; absent means "any". */
  function Filters(q: Query): (Option<Status>, Option<Priority>) {
    match q
    case FindByStatusAndPriority(s, p, _) => (Some(s), Some(p))
    case FindByStatus(s, _) => (Some(s), None)
    case FindByPriority(p, _) => (None, Some(p))
    case FindAll(_) => (None, None)
  }

  /**
   * The query `getTasks` runs: the most specific finder for the filters
   * given. It filters on exactly the given filters and pages as asked.
   */
  function SelectQuery(status: Option<Status>, priority: Option<Priority>, pageable: Pageable): (q: Query)
    ensures Filters(q) == (status, priority)
    ensures q.pageable == pageable
  {
    if status.Some? && priority.Some? then FindByStatusAndPriority(status.value, priority.value, pageable)
    else if status.Some? then FindByStatus(status.value, pageable)
    else if priority.Some? then FindByPriority(priority.value, pageable)
    else FindAll(pageable)
  }

  // ------------------------------------------------------------------
  // The service object
  // ------------------------------------------------------------------

  /** A call the service makes on the repository. */
  datatype StoreCall = Save(task: Task) | DeleteById(id: Option<int>)

  const UpdateConflictMessage := "Task was updated by another user. Please reload and try again."
  const PatchConflictMessage := "Task was updated during your edit. Please reload and try again."
  const DeleteConflictMessage := "Task was modified before deletion. Please refresh and try again."

  /**
   * The catch clauses of update, partial update and delete: either
   * optimistic-locking exception becomes an OptimisticLockException with
   * the operation's message; an IOException (partial update only) is
   * wrapped in a RuntimeException, whose message is the cause's
   * `toString()`; anything else propagates as it is. Only the merge of a
   * partial update can throw the checked IOException: the save and delete
   * behind update and delete never do, so there that branch is not reached.
   */
  function Translate(e: Exception, lockMessage: string): (r: Exception)
    ensures IsLockFailure(e.kind) ==> r == Exception(OptimisticLock, Some(lockMessage))
    ensures e.kind == IO ==> r.kind == Runtime && r.message.Some? && StartsWith(r.message.value, "java.io.IOException")
    ensures e.kind == IO && e.message.Some? ==>
      |r.message.value| == 21 + |e.message.value| && r.message.value[21..] == e.message.value
    ensures !IsLockFailure(e.kind) && e.kind != IO ==> r == e
  {
    if IsLockFailure(e.kind) then Exception(OptimisticLock, Some(lockMessage))
    else if e.kind == IO then Exception(Runtime, Some("java.io.IOException" + (if e.message.Some? then ": " + e.message.value else "")))
    else e
  }

  class TaskServiceImpl {
    /** The calls made on the repository, in order. */
    var writes: seq<StoreCall>
    /** The notifications handed to the broker, in order. */
    var outbox: seq<Message>
    /** The `cacheMisses` counter, bumped on every `getTasks` that reaches the repository. */
    var cacheMisses: nat

    constructor ()
      ensures writes == [] && outbox == [] && cacheMisses == 0
    {
      writes, outbox, cacheMisses := [], [], 0;
    }

    /** `getTasks`: counts the miss and runs the query for the filters given. */
    method GetTasks(status: Option<Status>, priority: Option<Priority>, pageable: Pageable) returns (q: Query)
      modifies this
      ensures q == SelectQuery(status, priority, pageable)
      ensures cacheMisses == old(cacheMisses) + 1
      ensures writes == old(writes) && outbox == old(outbox)
    {
      cacheMisses := cacheMisses + 1;
      if status.Some? && priority.Some? {
        q := FindByStatusAndPriority(status.value, priority.value, pageable);
      } else if status.Some? {
        q := FindByStatus(status.value, pageable);
      } else if priority.Some? {
        q := FindByPriority(priority.value, pageable);
      } else {
        q := FindAll(pageable);
      }
    }

    /**
     * `createTask`: saves the task as given; after a successful save it
     * sends exactly one CREATE notification carrying the saved task. A
     * failing save propagates untranslated and sends nothing.
     */
    method CreateTask(task: Task, save: Result<Task, Exception>, now: int) returns (r: Result<Task, Exception>)
      modifies this
      ensures writes == old(writes) + [Save(task)]
      ensures r == save
      ensures outbox == old(outbox) + (if save.Success? then [NotifyTaskCreated(save.value, now)] else [])
      ensures cacheMisses == old(cacheMisses)
    {
      writes := writes + [Save(task)];
      if save.Failure? {
        return Failure(save.error);
      }
      outbox := outbox + [NotifyTaskCreated(save.value, now)];
      r := Success(save.value);
    }

    /**
     * `updateTask`: saves the task as given; one UPDATE notification after
     * a successful save; an optimistic-locking failure is rethrown as
     * OptimisticLockException with the update message, and sends nothing.
     */
    method UpdateTask(task: Task, save: Result<Task, Exception>, now: int) returns (r: Result<Task, Exception>)
      modifies this
      ensures writes == old(writes) + [Save(task)]
      ensures save.Success? ==> r == save && outbox == old(outbox) + [NotifyTaskUpdated(save.value, now)]
      ensures save.Failure? ==> r == Failure(Translate(save.error, UpdateConflictMessage)) && outbox == old(outbox)
      ensures cacheMisses == old(cacheMisses)
    {
      writes := writes + [Save(task)];
      if save.Failure? {
        return Failure(Translate(save.error, UpdateConflictMessage));
      }
      outbox := outbox + [NotifyTaskUpdated(save.value, now)];
      r := Success(save.value);
    }

    /**
     * `partialUpdateTask`: `patched` is what the merge-patch step returned
     * for the stored task and the patch document. A failing merge saves
     * nothing; otherwise the merged task is saved and, on success, one
     * UPDATE notification is sent. Failures are translated with the
     * partial-update message.
     */
    method PartialUpdateTask(patched: Result<Task, Exception>, save: Result<Task, Exception>, now: int)
      returns (r: Result<Task, Exception>)
      modifies this
      ensures patched.Failure? ==>
        writes == old(writes) && outbox == old(outbox) && r == Failure(Translate(patched.error, PatchConflictMessage))
      ensures patched.Success? ==> writes == old(writes) + [Save(patched.value)]
      ensures patched.Success? && save.Success? ==>
        r == save && outbox == old(outbox) + [NotifyTaskUpdated(save.value, now)]
      ensures patched.Success? && save.Failure? ==>
        r == Failure(Translate(save.error, PatchConflictMessage)) && outbox == old(outbox)
      ensures cacheMisses == old(cacheMisses)
    {
      if patched.Failure? {
        return Failure(Translate(patched.error, PatchConflictMessage));
      }
      writes := writes + [Save(patched.value)];
      if save.Failure? {
        return Failure(Translate(save.error, PatchConflictMessage));
      }
      outbox := outbox + [NotifyTaskUpdated(save.value, now)];
      r := Success(save.value);
    }

    /**
     * `deleteTask`: deletes by id; after a completed delete, one DELETE
     * notification carrying the id. Optimistic-locking failures are
     * translated with the delete message, and send nothing.
     */
    method DeleteTask(id: Option<int>, deleted: Result<(), Exception>, now: int) returns (r: Result<(), Exception>)
      modifies this
      ensures writes == old(writes) + [DeleteById(id)]
      ensures deleted.Success? ==> r == Success(()) && outbox == old(outbox) + [NotifyTaskDeleted(id, now)]
      ensures deleted.Failure? ==> r == Failure(Translate(deleted.error, DeleteConflictMessage)) && outbox == old(outbox)
      ensures cacheMisses == old(cacheMisses)
    {
      writes := writes + [DeleteById(id)];
      if deleted.Failure? {
        return Failure(Translate(deleted.error, DeleteConflictMessage));
      }
      outbox := outbox + [NotifyTaskDeleted(id, now)];
      r := Success(());
    }
  }
}
