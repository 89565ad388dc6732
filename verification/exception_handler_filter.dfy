/**
 * The outermost filter: it runs the rest of the chain and turns the
 * unchecked exceptions that escape it into a status and a fixed body. The
 * catch clauses are tried in order, as Java does.
 */
module ExceptionHandlerFilter {
  import opened Wrappers
  import opened Domain
  import opened Servlet

  /** The exception types the catch clauses name. */
  datatype CaughtType = EntityNotFoundException | JwtException | RuntimeException

  /** Java's `instanceof` between an exception kind and a caught type. */
  predicate IsInstance(k: ExceptionKind, t: CaughtType) {
    match t
    case EntityNotFoundException => k == EntityNotFound
    case JwtException => k == Jwt
    case RuntimeException => !IsChecked(k)
  }

  datatype Clause = Clause(caught: CaughtType, status: int, body: string)

  /** The catch clauses of `doFilterInternal`, in source order. */
  const Clauses: seq<Clause> := [
    Clause(EntityNotFoundException, ScNotFound, "Username doesn't exist"),
    Clause(JwtException, ScForbidden, "JWT NOT VALID"),
    Clause(RuntimeException, ScBadRequest, "BAD REQUEST")
  ]

  /**
   * Java's choice of handler: the first clause whose type the exception is
   * an instance of; none when no clause matches.
   */
  function FirstMatch(clauses: seq<Clause>, k: ExceptionKind): (r: Option<nat>)
    ensures r.Some? ==> r.value < |clauses| && IsInstance(k, clauses[r.value].caught)
    ensures r.Some? ==> forall j :: 0 <= j < r.value ==> !IsInstance(k, clauses[j].caught)
    ensures r.None? <==> forall j :: 0 <= j < |clauses| ==> !IsInstance(k, clauses[j].caught)
    decreases |clauses|
  {
    if clauses == [] then None
    else if IsInstance(k, clauses[0].caught) then Some(0)
    else
      match FirstMatch(clauses[1..], k)
      case None => None
      case Some(i) => Some(i + 1)
  }

  /** The status and body the filter writes for an escaping exception, if it catches it. */
  function Handle(e: Exception): Option<(int, string)> {
    match FirstMatch(Clauses, e.kind)
    case None => None
    case Some(i) => Some((Clauses[i].status, Clauses[i].body))
  }

  /**
   * The classification: entity-not-found gives 404, a JWT exception 403,
   * any other unchecked exception 400, and checked ones are not caught.
   * Both specific kinds are RuntimeExceptions too, yet never reach the
   * 400 clause because theirs comes first.
   */
  lemma Classification(e: Exception)
    ensures e.kind == EntityNotFound ==> Handle(e) == Some((404, "Username doesn't exist"))
    ensures e.kind == Jwt ==> Handle(e) == Some((403, "JWT NOT VALID"))
    ensures e.kind != EntityNotFound && e.kind != Jwt && !IsChecked(e.kind) ==> Handle(e) == Some((400, "BAD REQUEST"))
    ensures IsChecked(e.kind) <==> Handle(e).None?
  {
    var k := e.kind;
    assert Clauses[1..] == [Clauses[1], Clauses[2]] && Clauses[1..][1..] == [Clauses[2]];
    if k == EntityNotFound {
      assert FirstMatch(Clauses, k) == Some(0);
    } else if k == Jwt {
      assert FirstMatch(Clauses[1..], k) == Some(0);
    } else if !IsChecked(k) {
      assert FirstMatch(Clauses[1..][1..], k) == Some(0);
      assert FirstMatch(Clauses[1..], k) == Some(1);
    } else {
      assert FirstMatch(Clauses, k).None?;
    }
  }

  /** Clause order matters: with the generic clause first, the specific ones would be unreachable. */
  lemma OrderMatters()
    ensures FirstMatch([Clauses[2], Clauses[0], Clauses[1]], EntityNotFound) == Some(0)
    ensures FirstMatch([Clauses[2], Clauses[0], Clauses[1]], Jwt) == Some(0)
  {
  }

  /**
   * `doFilterInternal`: runs the chain (whose ending is `downstream`);
   * a completed chain leaves the response as the chain left it; a caught
   * exception sets the status, writes the fixed body and closes the
   * writer; an uncaught (checked) exception leaves the filter.
   */
  method DoFilterInternal(downstream: ChainOutcome, response: HttpServletResponse) returns (escaped: Option<Exception>)
    modifies response
    ensures downstream.Completed? ==>
      escaped.None? && response.status == old(response.status) && response.body == old(response.body)
      && response.closed == old(response.closed)
    ensures downstream.Threw? && Handle(downstream.exception).None? ==>
      escaped == Some(downstream.exception) && response.status == old(response.status)
      && response.body == old(response.body) && response.closed == old(response.closed)
    ensures downstream.Threw? && Handle(downstream.exception).Some? ==>
      var (status, text) := Handle(downstream.exception).value;
      && escaped.None? && response.status == (if old(response.closed) then old(response.status) else status) && response.closed
      && response.body == (if old(response.closed) then old(response.body) else old(response.body) + text)
  {
    escaped := None;
    if downstream.Threw? {
      var e := downstream.exception;
      Classification(e);
      if e.kind == EntityNotFound {
        response.SetStatus(ScNotFound);
        response.Write("Username doesn't exist");
        response.Close();
      } else if e.kind == Jwt {
        response.SetStatus(ScForbidden);
        response.Write("JWT NOT VALID");
        response.Close();
      } else if !IsChecked(e.kind) {
        response.SetStatus(ScBadRequest);
        response.Write("BAD REQUEST");
        response.Close();
      } else {
        escaped := Some(e);
      }
    }
  }
}
