/**
 * The client's HTTP layer: the query parameters of the task list request,
 * the interceptors that attach the stored token and react to an expired
 * one, and the request shapes of update and partial update. The transport
 * itself is left out: a request is the value handed to it.
 */
module Api {
  import opened Wrappers
  import opened Text
  import opened Domain
  import opened Browser
  import opened SecurityConstants

  // ------------------------------------------------------------------
  // getTasks query parameters
  // ------------------------------------------------------------------

  /** One `URLSearchParams.append(name, value)`. */
  datatype Param = Param(name: string, value: string)

  /** `params.get(name)`: the value of the first parameter of that name. */
  function Lookup(params: seq<Param>, name: string): (r: Option<string>)
    ensures r.None? <==> forall i :: 0 <= i < |params| ==> params[i].name != name
    ensures r.Some? ==> exists i :: 0 <= i < |params| && params[i] == Param(name, r.value)
  {
    if params == [] then None
    else if params[0].name == name then Some(params[0].value)
    else
      var r := Lookup(params[1..], name);
      assert forall i :: 1 <= i < |params| ==> params[i] == params[1..][i - 1];
      r
  }

  /** The position of each parameter name in the order `getTasks` appends them. */
  function Rank(name: string): nat {
    if name == "status" then 0
    else if name == "priority" then 1
    else if name == "page" then 2
    else if name == "size" then 3
    else 4
  }

  function FilterParams(status: Option<Status>, priority: Option<Priority>): seq<Param> {
    (if status.Some? then [Param("status", StatusName(status.value))] else [])
    + (if priority.Some? then [Param("priority", PriorityName(priority.value))] else [])
  }

  function PagingParams(page: int, size: int): seq<Param> {
    [Param("page", NumberToString(page)), Param("size", NumberToString(size))]
  }

  function SortParams(sort: Option<string>): seq<Param> {
    if Truthy(sort) then [Param("sort", sort.value)] else []
  }

  /** The parameters `getTasks` sends, for page and size after their defaults. */
  function TaskParams(status: Option<Status>, priority: Option<Priority>, page: int, size: int, sort: Option<string>): seq<Param> {
    FilterParams(status, priority) + PagingParams(page, size) + SortParams(sort)
  }

  /**
   * `getTasks`' parameter builder: status and priority when given, page
   * and size always (0 and 10 when not given), sort when non-empty.
   */
  method BuildTaskParams(status: Option<Status>, page: Option<int>, size: Option<int>, sort: Option<string>,
                         priority: Option<Priority>)
    returns (params: seq<Param>)
    ensures params == TaskParams(status, priority, page.GetOr(0), size.GetOr(10), sort)
  {
    var p := if page.Some? then page.value else 0;
    var s := if size.Some? then size.value else 10;
    params := [];
    if status.Some? {
      params := params + [Param("status", StatusName(status.value))];
    }
    if priority.Some? {
      params := params + [Param("priority", PriorityName(priority.value))];
    }
    assert params == FilterParams(status, priority);
    params := params + [Param("page", NumberToString(p))];
    params := params + [Param("size", NumberToString(s))];
    assert params == FilterParams(status, priority) + PagingParams(p, s);
    if sort.Some? && sort.value != "" {
      params := params + [Param("sort", sort.value)];
    }
  }

  /** The parameters appear in the order status, priority, page, size, sort, each at most once. */
  lemma TaskParamsOrder(status: Option<Status>, priority: Option<Priority>, page: int, size: int, sort: Option<string>)
    ensures var ps := TaskParams(status, priority, page, size, sort);
      forall i, j :: 0 <= i < j < |ps| ==> Rank(ps[i].name) < Rank(ps[j].name)
  {
  }

  /** Looking up in a concatenation: the first part wins. */
  lemma {:induction false} LookupConcat(a: seq<Param>, b: seq<Param>, name: string)
    ensures Lookup(a + b, name) == if Lookup(a, name).Some? then Lookup(a, name) else Lookup(b, name)
    decreases |a|
  {
    if a != [] {
      assert (a + b)[0] == a[0];
      assert (a + b)[1..] == a[1..] + b;
      LookupConcat(a[1..], b, name);
    } else {
      assert a + b == b;
    }
  }

  /** The status and priority read back from the parameters are the filters given. */
  lemma TaskParamsFilters(status: Option<Status>, priority: Option<Priority>, page: int, size: int, sort: Option<string>)
    ensures var ps := TaskParams(status, priority, page, size, sort);
      && (match Lookup(ps, "status") case None => status.None? case Some(v) => ParseStatus(v) == status)
      && (match Lookup(ps, "priority") case None => priority.None? case Some(v) => ParsePriority(v) == priority)
  {
    var front := FilterParams(status, priority);
    var rest := PagingParams(page, size) + SortParams(sort);
    assert TaskParams(status, priority, page, size, sort) == front + rest;
    FilterNamesAbsent(page, size, sort);
    LookupConcat(front, rest, "status");
    LookupConcat(front, rest, "priority");
    var st := if status.Some? then [Param("status", StatusName(status.value))] else [];
    var pr := if priority.Some? then [Param("priority", PriorityName(priority.value))] else [];
    LookupConcat(st, pr, "status");
    LookupConcat(st, pr, "priority");
    if status.Some? {
      ParseStatusName(status.value);
    }
    if priority.Some? {
      ParsePriorityName(priority.value);
    }
  }

  /** The paging and sort parameters carry neither filter name. */
  lemma FilterNamesAbsent(page: int, size: int, sort: Option<string>)
    ensures Lookup(PagingParams(page, size) + SortParams(sort), "status").None?
    ensures Lookup(PagingParams(page, size) + SortParams(sort), "priority").None?
  {
    var rest := PagingParams(page, size) + SortParams(sort);
    forall i | 0 <= i < |rest|
      ensures rest[i].name != "status" && rest[i].name != "priority"
    {
      assert rest[i].name in {"page", "size", "sort"};
    }
  }

  /** Page and size are sent as decimal numerals that read back as the values. */
  lemma TaskParamsPaging(status: Option<Status>, priority: Option<Priority>, page: int, size: int, sort: Option<string>)
    ensures var ps := TaskParams(status, priority, page, size, sort);
      && Lookup(ps, "page").Some? && ParseInt(Lookup(ps, "page").value) == Some(page)
      && Lookup(ps, "size").Some? && ParseInt(Lookup(ps, "size").value) == Some(size)
  {
    var front := FilterParams(status, priority);
    var rest := PagingParams(page, size) + SortParams(sort);
    assert TaskParams(status, priority, page, size, sort) == front + rest;
    LookupConcat(front, rest, "page");
    LookupConcat(front, rest, "size");
    LookupConcat(PagingParams(page, size), SortParams(sort), "page");
    LookupConcat(PagingParams(page, size), SortParams(sort), "size");
    ParseIntOfNumberToString(page);
    ParseIntOfNumberToString(size);
  }

  /** The sort string is sent exactly when it is non-empty, and unchanged. */
  lemma TaskParamsSort(status: Option<Status>, priority: Option<Priority>, page: int, size: int, sort: Option<string>)
    ensures Lookup(TaskParams(status, priority, page, size, sort), "sort") == if Truthy(sort) then sort else None
  {
    var front := FilterParams(status, priority) + PagingParams(page, size);
    LookupConcat(front, SortParams(sort), "sort");
  }

  // ------------------------------------------------------------------
  // Interceptors
  // ------------------------------------------------------------------

  type Headers = map<string, string>

  /**
   * The request interceptor's effect: with a stored (non-empty) token the
   * Authorization header becomes the bearer form of it; otherwise the
   * headers are left as they are.
   */
  function WithToken(headers: Headers, token: Option<string>): (h: Headers)
    ensures Truthy(token) ==> h.Keys == headers.Keys + {Authorization} && h[Authorization] == IssuedHeader(token.value)
    ensures Truthy(token) ==> forall k :: k in headers && k != Authorization ==> h[k] == headers[k]
    ensures !Truthy(token) ==> h == headers
  {
    if Truthy(token) then headers[Authorization := Bearer + token.value] else headers
  }

  /** The request interceptor: reads the token and attaches it; it changes no browser state. */
  method RequestInterceptor(window: Window, headers: Headers) returns (h: Headers)
    ensures h == WithToken(headers, window.GetItem(JwtKey))
  {
    var token := window.GetItem(JwtKey);
    h := headers;
    if token.Some? && token.value != "" {
      h := h[Authorization := Bearer + token.value];
    }
  }

  /** A response body as the client sees it: parsed JSON with an optional message, plain text, or nothing. */
  datatype ResponseData = JsonBody(message: Option<string>) | TextBody(text: string) | NoData

  datatype ErrorResponse = ErrorResponse(status: int, data: ResponseData)

  /** A failed request: with the server's response, or without one (a network failure). */
  datatype HttpError = HttpError(response: Option<ErrorResponse>)

  /** `error.response?.status === 403 && error.response?.data?.message?.includes('expired')`. */
  predicate IsExpiry(error: HttpError) {
    && error.response.Some?
    && error.response.value.status == 403
    && error.response.value.data.JsonBody?
    && error.response.value.data.message.Some?
    && Includes(error.response.value.data.message.value, "expired")
  }

  /**
   * The response error interceptor: an expiry removes the stored token and
   * goes to the login page; any other error changes nothing. Either way
   * the error is rejected again, unchanged.
   */
  method OnResponseError(window: Window, error: HttpError) returns (rejected: HttpError)
    modifies window
    ensures rejected == error
    ensures IsExpiry(error) ==> window.storage == old(window.storage) - {JwtKey} && window.href == "/login"
    ensures !IsExpiry(error) ==> window.storage == old(window.storage) && window.href == old(window.href)
  {
    if IsExpiry(error) {
      window.RemoveItem(JwtKey);
      window.Navigate("/login");
    }
    rejected := error;
  }

  /** A 403 JSON message mentioning "expired" anywhere counts as an expiry. */
  lemma ExpiredAnywhere(before: string, after: string)
    ensures IsExpiry(HttpError(Some(ErrorResponse(403, JsonBody(Some(before + "expired" + after))))))
  {
    var m := before + "expired" + after;
    assert m == before + ("expired" + after);
    assert StartsWith("expired" + after, "expired");
    IncludesAfter(before, "expired" + after, "expired");
  }

  /** A plain-text body has no `message`, so it is never an expiry, whatever it says. */
  lemma PlainTextNeverExpiry(status: int, text: string)
    ensures !IsExpiry(HttpError(Some(ErrorResponse(status, TextBody(text)))))
  {
  }

  // ------------------------------------------------------------------
  // Request shapes
  // ------------------------------------------------------------------

  const JsonMediaType: string := "application/json"
  const ClientPatchMediaType: string := "application/mergepatch+json"

  /** A request as handed to the transport; the body is the JSON object's fields. */
  datatype Request = Request(verb: string, path: string, headers: Headers, body: map<string, string>)

  function TaskPath(id: int): string {
    "/tasks/" + NumberToString(id)
  }

  /**
   * `updateTask`'s own headers: JSON content, and an Authorization header
   * that is the bearer form of the token, or empty when none is stored.
   */
  function UpdateHeaders(token: Option<string>): (h: Headers)
    ensures h.Keys == {Authorization, "Content-Type"} && h["Content-Type"] == JsonMediaType
    ensures h[Authorization] == if Truthy(token) then IssuedHeader(token.value) else ""
  {
    map[Authorization := if Truthy(token) then Bearer + token.value else "", "Content-Type" := JsonMediaType]
  }

  /** Without a token, the interceptor leaves the empty Authorization header in place. */
  lemma UpdateWithoutToken(token: Option<string>)
    requires !Truthy(token)
    ensures WithToken(UpdateHeaders(token), token)[Authorization] == ""
  {
  }

  /**
   * `partialUpdateTask`: without a stored token it fails with
   * "Authentication required" and builds no request; otherwise a PATCH of
   * the task's path with the merge-patch content type and the patch as body.
   */
  function PartialUpdateRequest(token: Option<string>, id: int, patch: map<string, string>): (r: Result<Request, string>)
    ensures !Truthy(token) <==> r == Failure("Authentication required")
    ensures r.Success? ==> r.value.verb == "PATCH" && r.value.path == TaskPath(id) && r.value.body == patch
    ensures r.Success? ==> r.value.headers == map["Content-Type" := ClientPatchMediaType, "Accept" := JsonMediaType]
  {
    if !Truthy(token) then Failure("Authentication required")
    else Success(Request("PATCH", TaskPath(id), map["Content-Type" := ClientPatchMediaType, "Accept" := JsonMediaType], patch))
  }
}
