# Kanban board: a Dafny model

This project models the core of a Kanban task board: a Spring Boot backend
that stores tasks with a status (TO_DO, IN_PROGRESS, DONE) and a priority,
and a React client that shows them in three columns and moves them by drag
and drop.

The backend part covers:

- the task service, which builds a `Pageable` from the `sort` request
  parameter, selects the repository finder, saves and deletes tasks,
  translates optimistic-locking failures, and announces every change on
  `/topic/tasks`;
- the REST controller behind the per-client rate limiter (a token bucket of
  100 per client address);
- the GraphQL controller;
- the validation constraints of the task DTO;
- the JWT authorization filter and the exception-handling filter.

The client part covers:

- the axios interceptors (bearer header, token expiry);
- the parameters of the task query and the PATCH request;
- the WebSocket subscriber list;
- the login dialog's token handling;
- the grouping of tasks into columns and the drop handler;
- the container's cache invalidation.

Java and JavaScript string semantics are modelled in `text.dfy`: `split` with
trailing empty pieces dropped, `trim`, `replace`, `equalsIgnoreCase`,
`parseInt` and `Number#toString`.

Collaborators the code calls but that are not modelled are parameters. These
are the repository's saved entity or thrown exception, the JWT parser's
verdict, the merge-patch result, the request's client address, and the
clock. Mutable objects are classes:

- `TaskServiceImpl` records its repository writes and its outbox of
  notifications;
- `RateLimiterServiceImpl` holds its bucket map;
- the servlet response, the security context, the browser window and
  storage, the WebSocket service and the React components' state are each a
  class.

Each method is proved against a specification function (`Admit`,
`PageableOf`, `Column`, `Merged`, `WithToken`, `Without`), and the
properties are lemmas about those functions.

Three behaviours of the code worth noting:
- The board does not update optimistically on drop; the container only
  invalidates the `['tasks']` query after a successful mutation or a
  notification.
- The DTO's `@NotBlank`, `@Size` and `@NotNull` constraints guard no request: the REST
  handlers validate the entity `Task`, which has none, and the GraphQL mutations
  validate nothing.
- `connect()` is not idempotent: each call creates and activates a new client
  and leaves the previous one active.

## Model

| member | source | states |
|---|---|---|
| Text.IncludesAfter | frontend/src/services/api.ts:31 | a substring still occurs once anything is put in front of the string (used for the `includes('expired')` test) |
| Text.TrimLeading | backend/src/main/java/com/company/kanban/service/implementations/TaskServiceImpl.java:142 | Java `trim` from the left: the result is a suffix, everything dropped is a character up to U+0020, and the result does not start with one |
| Text.TrimTrailing | backend/src/main/java/com/company/kanban/service/implementations/TaskServiceImpl.java:142 | Java `trim` from the right: the result is a prefix, everything dropped is trimmable, and the result does not end with a trimmable character |
| Text.TrimEmptyIffAllTrimmable | backend/src/main/java/com/company/kanban/service/implementations/TaskServiceImpl.java:148 | `trim()` gives the empty string exactly when every character is at most U+0020 |
| Text.TrimUntrimmed | backend/src/main/java/com/company/kanban/service/implementations/TaskServiceImpl.java:142 | `trim()` leaves a string alone when neither end is trimmable |
| Text.Pieces | backend/src/main/java/com/company/kanban/service/implementations/TaskServiceImpl.java:136 | splitting at every separator gives at least one piece and no piece holds the separator |
| Text.JoinPieces | backend/src/main/java/com/company/kanban/service/implementations/TaskServiceImpl.java:136 | joining the pieces with the separator gives the original string back |
| Text.DropTrailingEmpty | backend/src/main/java/com/company/kanban/service/implementations/TaskServiceImpl.java:136 | `String.split` drops exactly the trailing run of empty pieces: the result is a prefix, the dropped pieces are empty, and its last piece is not |
| Text.Split | backend/src/main/java/com/company/kanban/service/implementations/TaskServiceImpl.java:136 | no piece of `String.split` contains the separator |
| Text.PiecesWithoutSeparator | backend/src/main/java/com/company/kanban/service/implementations/TaskServiceImpl.java:141 | a string without the separator is its own single piece |
| Text.PiecesOfConcat | backend/src/main/java/com/company/kanban/service/implementations/TaskServiceImpl.java:141 | a separator-free prefix joins the first piece of the rest |
| Text.PiecesAfterSeparator | backend/src/main/java/com/company/kanban/service/implementations/TaskServiceImpl.java:141 | text up to the first separator is the first piece, the rest splits on its own |
| Text.PiecesOfJoin | backend/src/main/java/com/company/kanban/service/implementations/TaskServiceImpl.java:136 | splitting a join of separator-free pieces gives those pieces back |
| Text.SplitOfJoin | backend/src/main/java/com/company/kanban/service/implementations/TaskServiceImpl.java:136 | `split` of a join gives the pieces back when the last piece is non-empty |
| Text.PiecesAllEmpty | backend/src/main/java/com/company/kanban/service/implementations/TaskServiceImpl.java:141 | all pieces are empty exactly when the string consists of separators only |
| Text.SplitEmptyIffOnlySeparators | backend/src/main/java/com/company/kanban/service/implementations/TaskServiceImpl.java:141 | `String.split` returns an empty array exactly for a non-empty string made only of separators, which makes `parts[0]` throw |
| Text.RemoveAll | backend/src/main/java/com/company/kanban/security/filter/JWTAuthorizationFilter.java:44 | `String.replace(target, "")` never makes the string longer |
| Text.RemoveAllAbsent | backend/src/main/java/com/company/kanban/security/filter/JWTAuthorizationFilter.java:44 | `replace` changes nothing when a character of the target never occurs |
| Text.RemoveAllAfterFree | backend/src/main/java/com/company/kanban/security/filter/JWTAuthorizationFilter.java:44 | when the target's last character occurs nowhere else in it, `replace` keeps text lacking that character and removes the occurrence after it, going on with the rest |
| Text.NatToDecimal | frontend/src/services/api.ts:45-46 | the decimal rendering is non-empty, all digits, and has no leading zero except for 0 itself |
| Text.LeadingDigits | frontend/src/components/TaskBoardContainer.tsx:79 | `parseInt` reads the longest run of digits: a prefix of digits followed by a non-digit or the end |
| Text.SkipJsWhiteSpace | frontend/src/components/TaskBoardContainer.tsx:79 | skipping leading white space never lengthens the string |
| Text.DecimalValue | frontend/src/services/api.ts:45-46 | the numeral of a decimal rendering has the rendered value |
| Text.LeadingDigitsOfDigits | frontend/src/components/TaskBoardContainer.tsx:79 | a string of digits is read whole |
| Text.ParseUnsignedDecimal | frontend/src/components/TaskBoardContainer.tsx:79 | `parseInt` of the decimal rendering of a natural number gives that number |
| Text.ParseIntOfNumberToString | frontend/src/components/TaskCard.tsx:30 | `parseInt(n.toString())` is `n` for every integer, negative ones included |
| Domain.ParseStatus | frontend/src/types/task.ts:1-5 | a parsed status name is the name of the status it parses to |
| Domain.ParsePriority | frontend/src/types/task.ts:7-11 | a parsed priority name is the name of the priority it parses to |
| Domain.ParseStatusName | backend/src/main/java/com/company/kanban/model/entity/Task.java:31-33 | every status survives its string form (`EnumType.STRING`) and the query parameter round trip |
| Domain.ParsePriorityName | frontend/src/types/task.ts:7-11 | every priority survives its string form |
| TaskWebSocketController.CreateNotification | backend/src/main/java/com/company/kanban/controller/TaskWebSocketController.java:42-48 | the notification has exactly the keys `type`, `task` and `timestamp`, with the given type and task |
| TaskWebSocketController.NotifyTaskCreated | backend/src/main/java/com/company/kanban/controller/TaskWebSocketController.java:21-24 | a CREATE notification carrying the task, sent to `/topic/tasks` |
| TaskWebSocketController.NotifyTaskUpdated | backend/src/main/java/com/company/kanban/controller/TaskWebSocketController.java:27-30 | an UPDATE notification carrying the task, sent to `/topic/tasks` |
| TaskWebSocketController.NotifyTaskDeleted | backend/src/main/java/com/company/kanban/controller/TaskWebSocketController.java:33-40 | a DELETE notification with `taskId` and no `task`, sent to `/topic/tasks` |
| TaskService.ParseCriterion | backend/src/main/java/com/company/kanban/service/implementations/TaskServiceImpl.java:140-148 | a criterion that cannot be parsed fails only by the out-of-bounds `parts[0]` |
| TaskService.CriterionWithoutComma | backend/src/main/java/com/company/kanban/service/implementations/TaskServiceImpl.java:147-148 | a criterion without a comma sorts ascending by its trimmed text |
| TaskService.CriterionWithComma | backend/src/main/java/com/company/kanban/service/implementations/TaskServiceImpl.java:140-146 | with a comma: it throws exactly when it consists of commas only; otherwise the property is the trimmed first piece and the direction is descending exactly when the trimmed second piece equals "desc" ignoring case |
| TaskService.CommasOnlyCriterionThrows | backend/src/main/java/com/company/kanban/service/implementations/TaskServiceImpl.java:141-142 | a criterion made only of commas makes `parts[0]` throw |
| TaskService.ParseCriteria | backend/src/main/java/com/company/kanban/service/implementations/TaskServiceImpl.java:139-149 | the orders succeed exactly when every criterion parses, one order per criterion, in criterion order |
| TaskService.ParsedEachExtend | backend/src/main/java/com/company/kanban/service/implementations/TaskServiceImpl.java:139-149 | the loop invariant survives parsing the next criterion and appending its order |
| TaskService.ParsedEachCriteria | backend/src/main/java/com/company/kanban/service/implementations/TaskServiceImpl.java:139-149 | the loop invariant at the end means the orders are those of the specification |
| TaskService.PageableOf | backend/src/main/java/com/company/kanban/service/implementations/TaskServiceImpl.java:133-155 | page and size pass through unchanged; the result succeeds exactly when the sort parameter parses |
| TaskService.BuildPageable | backend/src/main/java/com/company/kanban/service/implementations/TaskServiceImpl.java:133-155 | the loop computes exactly the specified pageable, failure included |
| TaskService.DefaultSort | backend/src/main/java/com/company/kanban/service/implementations/TaskServiceImpl.java:152-153 | a missing or empty sort parameter gives the single order `id` ascending |
| TaskService.OnlySemicolonsGiveNoOrder | backend/src/main/java/com/company/kanban/service/implementations/TaskServiceImpl.java:135-150 | a sort parameter of semicolons only gives a pageable with no order at all, not the default |
| TaskService.PlainCriterion | backend/src/main/java/com/company/kanban/service/implementations/TaskServiceImpl.java:140-146 | `p,d` with untrimmed words sorts by `p`, descending exactly when `d` is "desc" ignoring case |
| TaskService.CriteriaInOrder | backend/src/main/java/com/company/kanban/service/implementations/TaskServiceImpl.java:135-150 | criteria joined with `;` give one order per criterion in the same order, and fail exactly when one of them fails |
| TaskService.SelectQuery | backend/src/main/java/com/company/kanban/service/implementations/TaskServiceImpl.java:63-71 | the repository query filters by exactly the given status and priority and uses the given pageable |
| TaskService.Translate | backend/src/main/java/com/company/kanban/service/implementations/TaskServiceImpl.java:102-128 | lock failures become an OptimisticLockException with the operation's message; an IOException becomes a RuntimeException naming it; anything else propagates unchanged |
| TaskService.TaskServiceImpl.constructor | backend/src/main/java/com/company/kanban/service/implementations/TaskServiceImpl.java:40-51 | no writes, no notifications, no cache misses |
| TaskService.TaskServiceImpl.GetTasks | backend/src/main/java/com/company/kanban/service/implementations/TaskServiceImpl.java:57-79 | one cache miss counted, the query selected by the filters, nothing written or sent |
| TaskService.TaskServiceImpl.CreateTask | backend/src/main/java/com/company/kanban/service/implementations/TaskServiceImpl.java:88-93 | the task is saved and the saved task is returned and announced with CREATE; a failed save announces nothing |
| TaskService.TaskServiceImpl.UpdateTask | backend/src/main/java/com/company/kanban/service/implementations/TaskServiceImpl.java:96-105 | the task is saved and announced with UPDATE; a lock failure becomes the update conflict message and nothing is announced |
| TaskService.TaskServiceImpl.PartialUpdateTask | backend/src/main/java/com/company/kanban/service/implementations/TaskServiceImpl.java:108-120 | a failed merge saves nothing; otherwise the merged task is saved and announced; failures are translated with the edit conflict message |
| TaskService.TaskServiceImpl.DeleteTask | backend/src/main/java/com/company/kanban/service/implementations/TaskServiceImpl.java:123-130 | the id is deleted and a DELETE notification sent on success; a lock failure becomes the deletion conflict message |
| RateLimiter.Admit | backend/src/main/java/com/company/kanban/service/implementations/RateLimiterServiceImpl.java:41-55 | no client address means 403 and no bucket touched; otherwise a bucket is created full on first use, a request is allowed exactly when a token is left, an allowed request takes one token, and other clients' buckets are untouched |
| RateLimiter.BurstAllowsTokens | backend/src/main/java/com/company/kanban/service/implementations/RateLimiterServiceImpl.java:49-54 | of n consecutive requests from one client exactly the first `tokens` are allowed and the rest get 429 |
| RateLimiter.NewClientBurst | backend/src/main/java/com/company/kanban/service/implementations/RateLimiterServiceImpl.java:26-32 | a new client gets exactly 100 requests through before 429 |
| RateLimiter.Refilled | backend/src/main/java/com/company/kanban/service/implementations/RateLimiterServiceImpl.java:30 | a refill never goes above the capacity of 100 and touches no other bucket |
| RateLimiter.RateLimiterServiceImpl.constructor | backend/src/main/java/com/company/kanban/service/implementations/RateLimiterServiceImpl.java:24 | no buckets yet |
| RateLimiter.RateLimiterServiceImpl.PerformIfAllowed | backend/src/main/java/com/company/kanban/service/implementations/RateLimiterServiceImpl.java:41-55 | the decision and the new buckets are those of `Admit`, and every bucket stays within capacity |
| RateLimiter.RateLimiterServiceImpl.Refill | backend/src/main/java/com/company/kanban/service/implementations/RateLimiterServiceImpl.java:30 | a known bucket is refilled as `Refilled` says; an unknown one is not created |
| SecurityConstants.IssuedHeader | backend/src/main/java/com/company/kanban/security/filter/AuthenticationFilter.java:59 | the issued header is "Bearer " followed by the token |
| JwtAuthorizationFilter.BearerToken | backend/src/main/java/com/company/kanban/security/filter/JWTAuthorizationFilter.java:37-44 | a token is taken exactly when the header is present and starts with "Bearer " |
| JwtAuthorizationFilter.BearerTokenOfIssued | backend/src/main/java/com/company/kanban/security/filter/JWTAuthorizationFilter.java:44 | the filter reads back the token the login issued |
| JwtAuthorizationFilter.InnerPrefixRemoved | backend/src/main/java/com/company/kanban/security/filter/JWTAuthorizationFilter.java:44 | for any two space-free parts, the token of "Bearer a" + "Bearer b" is a + b: `replace` also removes a "Bearer " inside the token |
| JwtAuthorizationFilter.RejectionBody | backend/src/main/java/com/company/kanban/security/filter/JWTAuthorizationFilter.java:64 | the 403 body is "Invalid JWT token: " followed by the exception message, "null" when there is none |
| JwtAuthorizationFilter.DoFilterInternal | backend/src/main/java/com/company/kanban/security/filter/JWTAuthorizationFilter.java:33-67 | no bearer header: chain once, unauthenticated; a rejected token: 403 with the reason and no chain; a verified token: principal is the subject with ROLE_USER only, chain once, and a downstream exception is answered 403 too; a response already committed keeps its status and body |
| ExceptionHandlerFilter.FirstMatch | backend/src/main/java/com/company/kanban/security/filter/ExceptionHandlerFilter.java:22-36 | the first clause whose type the exception is an instance of, and none exactly when no clause matches |
| ExceptionHandlerFilter.Classification | backend/src/main/java/com/company/kanban/security/filter/ExceptionHandlerFilter.java:24-36 | EntityNotFound gives 404, a JwtException 403, any other runtime exception 400, and checked exceptions are not handled |
| ExceptionHandlerFilter.OrderMatters | backend/src/main/java/com/company/kanban/security/filter/ExceptionHandlerFilter.java:24-36 | with the RuntimeException clause first, the 404 and 403 clauses could never match |
| ExceptionHandlerFilter.DoFilterInternal | backend/src/main/java/com/company/kanban/security/filter/ExceptionHandlerFilter.java:20-38 | a completed chain leaves the response alone; a handled exception sets the status, writes the text and closes; a checked one escapes; a response already committed keeps its status and body |
| Servlet.HttpServletResponse.constructor | backend/src/main/java/com/company/kanban/security/filter/ExceptionHandlerFilter.java:25-27 | a fresh response: 200, empty body, open |
| Servlet.HttpServletResponse.SetStatus | backend/src/main/java/com/company/kanban/security/filter/ExceptionHandlerFilter.java:25 | only the status changes, and only while the response is not yet committed |
| Servlet.HttpServletResponse.Write | backend/src/main/java/com/company/kanban/security/filter/ExceptionHandlerFilter.java:26 | text is appended while the writer is open and ignored once it is closed |
| Servlet.HttpServletResponse.Close | backend/src/main/java/com/company/kanban/security/filter/ExceptionHandlerFilter.java:27 | the writer is closed, nothing else changes |
| Servlet.SecurityContext.constructor | backend/src/main/java/com/company/kanban/security/filter/JWTAuthorizationFilter.java:59 | no authentication yet |
| Servlet.SecurityContext.SetAuthentication | backend/src/main/java/com/company/kanban/security/filter/JWTAuthorizationFilter.java:59 | the context holds exactly the given authentication |
| TaskController.Refusal | backend/src/main/java/com/company/kanban/service/implementations/RateLimiterServiceImpl.java:44-54 | a refused request is 403 without a client address and 429 without a token, with no body |
| TaskController.GetAllTasks | backend/src/main/java/com/company/kanban/controller/TaskController.java:42-56 | rate-limited; defaults page 0 and size 10; a sort parameter that throws propagates; otherwise 200 with the page for the filters |
| TaskController.GetTaskById | backend/src/main/java/com/company/kanban/controller/TaskController.java:58-65 | rate-limited; 200 with the task when it exists, 404 otherwise |
| TaskController.CreateTask | backend/src/main/java/com/company/kanban/controller/TaskController.java:67-76 | rate-limited; the task is saved and answered 201 with a link to the created id; a successful save broadcasts one created notification and the cache is not consulted |
| TaskController.UpdateTask | backend/src/main/java/com/company/kanban/controller/TaskController.java:78-86 | rate-limited; the body task is saved whatever the path id; 200 or the translated failure; a successful save broadcasts one updated notification and the cache is not consulted |
| TaskController.PartialUpdateTask | backend/src/main/java/com/company/kanban/controller/TaskController.java:88-108 | a content type other than merge-patch is refused with 415 before the limiter; 404 without a write when the task is missing; otherwise the patched task is saved and a successful save broadcasts one updated notification; the cache is not consulted |
| TaskController.DeleteTask | backend/src/main/java/com/company/kanban/controller/TaskController.java:110-116 | rate-limited; the id is deleted and answered 204, or the translated failure; a successful delete broadcasts one deleted notification and the cache is not consulted |
| TaskGraphQLController.TaskEntity.constructor | backend/src/main/java/com/company/kanban/controller/TaskGraphQLController.java:48 | every field of a new entity is null |
| TaskGraphQLController.TaskEntity.FromTask | backend/src/main/java/com/company/kanban/controller/TaskGraphQLController.java:68 | the entity holds exactly the found task |
| TaskGraphQLController.TaskEntity.SetTitle | backend/src/main/java/com/company/kanban/controller/TaskGraphQLController.java:70 | only the title changes |
| TaskGraphQLController.TaskEntity.SetDescription | backend/src/main/java/com/company/kanban/controller/TaskGraphQLController.java:71 | only the description changes |
| TaskGraphQLController.TaskEntity.SetStatus | backend/src/main/java/com/company/kanban/controller/TaskGraphQLController.java:72 | only the status changes |
| TaskGraphQLController.TaskEntity.SetPriority | backend/src/main/java/com/company/kanban/controller/TaskGraphQLController.java:73 | only the priority changes |
| TaskGraphQLController.Pick | backend/src/main/java/com/company/kanban/controller/TaskGraphQLController.java:70-73 | a given argument wins, a null one keeps the existing value |
| TaskGraphQLController.Merged | backend/src/main/java/com/company/kanban/controller/TaskGraphQLController.java:68-73 | id and version are kept; each field is the argument when given and the existing value otherwise |
| TaskGraphQLController.MergeNothing | backend/src/main/java/com/company/kanban/controller/TaskGraphQLController.java:70-73 | an update with no arguments saves the task unchanged |
| TaskGraphQLController.MergeIdempotent | backend/src/main/java/com/company/kanban/controller/TaskGraphQLController.java:70-73 | applying the same update twice is applying it once |
| TaskGraphQLController.MergeTwice | backend/src/main/java/com/company/kanban/controller/TaskGraphQLController.java:70-73 | two updates in a row equal one update whose arguments take the later ones first |
| TaskGraphQLController.Tasks | backend/src/main/java/com/company/kanban/controller/TaskGraphQLController.java:26-36 | defaults page 0 and size 10, sort by id ascending, and the page content is returned |
| TaskGraphQLController.CreateTask | backend/src/main/java/com/company/kanban/controller/TaskGraphQLController.java:43-55 | a task without id or version and with the given fields is saved; a successful save broadcasts one created notification and the cache is not consulted |
| TaskGraphQLController.UpdateTask | backend/src/main/java/com/company/kanban/controller/TaskGraphQLController.java:57-76 | a missing task gives null and writes nothing; otherwise the merged task is saved and a successful save broadcasts one updated notification; the cache is not consulted |
| TaskGraphQLController.DeleteTask | backend/src/main/java/com/company/kanban/controller/TaskGraphQLController.java:78-86 | true exactly when the deletion did not throw; a successful delete broadcasts one deleted notification and the cache is not consulted |
| TaskDto.ValidMeans | backend/src/main/java/com/company/kanban/model/dto/TaskDTO.java:22-34 | valid exactly when the title is non-blank with 3 to 100 characters, the description non-blank with at most 500, and status and priority present |
| TaskDto.Violations | backend/src/main/java/com/company/kanban/model/dto/TaskDTO.java:22-34 | a constraint is reported exactly when the DTO breaks it; each constraint is checked on its own |
| TaskDto.BlankTitle | backend/src/main/java/com/company/kanban/model/dto/TaskDTO.java:22 | a present title is blank exactly when all its characters are white space |
| TaskDto.IdAndVersionFree | backend/src/main/java/com/company/kanban/model/dto/TaskDTO.java:20-36 | id and version carry no constraint |
| TaskDto.NullTitleOnlyBlank | backend/src/main/java/com/company/kanban/model/dto/TaskDTO.java:22-23 | a null title violates NotBlank but not Size |
| ClientTypes.BackendNotificationsConform | frontend/src/types/task.ts:22-27 | every notification the backend sends has the client's notification shape |
| Browser.Window.constructor | frontend/src/services/api.ts:17 | empty storage at the given location |
| Browser.Window.GetItem | frontend/src/services/api.ts:17 | `localStorage.getItem` gives the stored value or null |
| Browser.Window.SetItem | frontend/src/components/LoginDialog.tsx:28 | only the one key is set |
| Browser.Window.RemoveItem | frontend/src/services/api.ts:33 | only the one key is removed |
| Browser.Window.Navigate | frontend/src/services/api.ts:34 | only the location changes |
| Api.Lookup | frontend/src/services/api.ts:41-51 | the first value for a parameter name, and none exactly when the name is absent |
| Api.BuildTaskParams | frontend/src/services/api.ts:41-48 | the parameters are those of `TaskParams`, with page 0 and size 10 by default |
| Api.TaskParamsOrder | frontend/src/services/api.ts:43-47 | parameters appear in the order status, priority, page, size, sort |
| Api.LookupConcat | frontend/src/services/api.ts:42-47 | looking up in appended parameters finds the first part first |
| Api.TaskParamsFilters | frontend/src/services/api.ts:43-44 | the status and priority parameters are present exactly when given and parse back to them |
| Api.FilterNamesAbsent | frontend/src/services/api.ts:45-47 | the page, size and sort parameters never carry the name status or priority |
| Api.TaskParamsPaging | frontend/src/services/api.ts:45-46 | page and size are always sent and parse back to their values |
| Api.TaskParamsSort | frontend/src/services/api.ts:47 | the sort parameter is sent exactly when it is non-empty |
| Api.WithToken | frontend/src/services/api.ts:15-25 | a stored non-empty token adds "Bearer " plus the token as Authorization and keeps the other headers; otherwise the headers are unchanged |
| Api.RequestInterceptor | frontend/src/services/api.ts:15-25 | the headers sent are `WithToken` of the stored token |
| Api.OnResponseError | frontend/src/services/api.ts:28-38 | an expiry (403 whose JSON message contains "expired") removes the token and goes to /login; any other error changes nothing; the error is rejected unchanged |
| Api.ExpiredAnywhere | frontend/src/services/api.ts:31 | "expired" anywhere in the 403 message counts as expiry |
| Api.PlainTextNeverExpiry | frontend/src/services/api.ts:31 | a plain-text error body is never an expiry |
| Api.UpdateHeaders | frontend/src/services/api.ts:66-71 | the PUT sends Authorization (empty without a token) and JSON content type |
| Api.UpdateWithoutToken | frontend/src/services/api.ts:68 | without a token the PUT sends an empty Authorization header, which the interceptor leaves alone |
| Api.PartialUpdateRequest | frontend/src/services/api.ts:75-96 | without a token it fails with "Authentication required"; otherwise a PATCH to the task with merge-patch content type |
| WebSocketService.StompClient.constructor | frontend/src/services/websocket.ts:10-25 | a new client is inactive |
| WebSocketService.StompClient.Activate | frontend/src/services/websocket.ts:27 | the client becomes active |
| WebSocketService.StompClient.Deactivate | frontend/src/services/websocket.ts:32 | the client becomes inactive |
| WebSocketService.Without | frontend/src/services/websocket.ts:40 | the filtered list no longer holds the callback and is not longer than before |
| WebSocketService.WithoutConcat | frontend/src/services/websocket.ts:40 | filtering distributes over appending |
| WebSocketService.WithoutKeepsOthers | frontend/src/services/websocket.ts:40 | every other callback keeps its number of occurrences |
| WebSocketService.WithoutAbsent | frontend/src/services/websocket.ts:40 | filtering out an absent callback changes nothing |
| WebSocketService.WithoutIdempotent | frontend/src/services/websocket.ts:39-41 | unsubscribing twice is unsubscribing once |
| WebSocketService.SubscribeThenUnsubscribe | frontend/src/services/websocket.ts:37-41 | subscribing a new callback and unsubscribing it restores the list |
| WebSocketService.WebSocketServiceImpl.constructor | frontend/src/services/websocket.ts:6-7 | no client and no subscribers |
| WebSocketService.WebSocketServiceImpl.Connect | frontend/src/services/websocket.ts:9-28 | a fresh active client replaces the old one, which is left as it was; subscribers unchanged |
| WebSocketService.WebSocketServiceImpl.Disconnect | frontend/src/services/websocket.ts:30-35 | an existing client is deactivated and dropped |
| WebSocketService.WebSocketServiceImpl.Subscribe | frontend/src/services/websocket.ts:37-38 | the callback is appended |
| WebSocketService.WebSocketServiceImpl.Unsubscribe | frontend/src/services/websocket.ts:39-41 | every occurrence of the callback is removed |
| WebSocketService.WebSocketServiceImpl.Deliver | frontend/src/services/websocket.ts:16 | every subscriber of the moment is called exactly once with the notification, in subscription order |
| LoginDialog.SelectHeader | frontend/src/components/LoginDialog.tsx:22 | the lower-case header wins when non-empty, else the other |
| LoginDialog.ExtractToken | frontend/src/components/LoginDialog.tsx:23-26 | a token exactly when the header is non-empty and starts with "Bearer ", and it is the rest of the header |
| LoginDialog.ExtractIssued | frontend/src/components/LoginDialog.tsx:24-25 | the dialog reads back the token the server issued |
| LoginDialog.FailureMessage | frontend/src/components/LoginDialog.tsx:35 | the shown error is never empty; it is exactly the server's JSON message whenever that message is present and non-empty, and "Login failed" in every other case |
| LoginDialog.LoginDialogState.constructor | frontend/src/components/LoginDialog.tsx:13-14 | not loading, no error |
| LoginDialog.LoginDialogState.Submit | frontend/src/components/LoginDialog.tsx:18-19 | loading, error cleared |
| LoginDialog.LoginDialogState.Settle | frontend/src/components/LoginDialog.tsx:20-38 | loading ends; a token is stored and the dialog closed; an empty or missing token shows "No token received."; a failure shows its message |
| LoginDialog.PlainTextFailure | frontend/src/components/LoginDialog.tsx:35 | a plain-text error body shows "Login failed" |
| LoginDialog.EmptyTokenRejected | frontend/src/components/LoginDialog.tsx:24-27 | a bare "Bearer " header gives an empty, falsy token, so nothing is stored |
| TaskBoard.Column | frontend/src/components/TaskBoard.tsx:24-30 | a column holds exactly the tasks of its status and no more tasks than the board |
| TaskBoard.PushKeepsGroups | frontend/src/components/TaskBoard.tsx:25-28 | pushing a task onto its status's list, created on first use, keeps every list the column of the longer prefix |
| TaskBoard.ColumnConcat | frontend/src/components/TaskBoard.tsx:24-30 | grouping distributes over appending, so task order is kept within a column |
| TaskBoard.ColumnSizes | frontend/src/components/TaskBoard.tsx:24-36 | the three columns together hold every task exactly once |
| TaskBoard.GroupByStatus | frontend/src/components/TaskBoard.tsx:24-36 | every status has a column, empty ones included, and each column is `Column` of its status |
| TaskBoard.Columns | frontend/src/components/TaskBoard.tsx:55-67 | three columns in the order TO_DO, IN_PROGRESS, DONE, each with its tasks |
| TaskBoardContainer.HandleTaskReorder | frontend/src/components/TaskBoardContainer.tsx:76-86 | no patch without a destination; otherwise a patch of the parsed id setting the status to the destination |
| TaskBoardContainer.DropPatchesDraggedTask | frontend/src/components/TaskCard.tsx:30 | dropping a card on a column patches exactly that task with that column's status |
| TaskBoardContainer.BackendNotificationsInvalidate | frontend/src/components/TaskBoardContainer.tsx:49-53 | every notification the backend sends invalidates the task list |
| TaskBoardContainer.Rendered | frontend/src/components/TaskBoardContainer.tsx:88-94 | the board renders exactly when loading is over and the page has content, and shows that content |
| TaskBoardContainer.TaskBoardContainerState.constructor | frontend/src/components/TaskBoardContainer.tsx:10-15 | no invalidations and no listener |
| TaskBoardContainer.TaskBoardContainerState.OnMutationSettled | frontend/src/components/TaskBoardContainer.tsx:17-45 | a successful mutation invalidates the list once; a failed one does not |
| TaskBoardContainer.TaskBoardContainerState.OnNotification | frontend/src/components/TaskBoardContainer.tsx:49-53 | a CREATE, UPDATE or DELETE notification invalidates the list once |
| TaskBoardContainer.TaskBoardContainerState.Mount | frontend/src/components/TaskBoardContainer.tsx:47-53 | connects a fresh active client and appends a new listener |
| TaskBoardContainer.TaskBoardContainerState.Cleanup | frontend/src/components/TaskBoardContainer.tsx:55-58 | the listener is unsubscribed and the client deactivated and dropped |
| EndToEnd.BearerRoundTrip | backend/src/main/java/com/company/kanban/security/filter/AuthenticationFilter.java:59 | a token issued by the server is stored by the dialog, sent by the interceptor and read back by the filter |
| EndToEnd.UpdateWithoutTokenUnauthenticated | frontend/src/services/api.ts:68 | a PUT without a token reaches the filter with no bearer header and goes on unauthenticated |
| EndToEnd.PatchContentTypeAccepted | frontend/src/services/api.ts:89 | the client's PATCH content type is the one the controller consumes |
| EndToEnd.ClientSortReachesServer | frontend/src/services/api.ts:47 | the sort the client sends gives the server the same pageable as the client's own sort value |
| EndToEnd.ServerRejectionNotSeenAsExpiry | backend/src/main/java/com/company/kanban/security/filter/JWTAuthorizationFilter.java:63-64 | the filter's plain-text 403 for an expired token is never recognised as an expiry by the client |

## Left out

- Networking, HTTP transport, JSON (de)serialisation by Jackson, STOMP framing and SockJS are not modelled; requests and responses are values.
- The JSON merge patch itself (`JsonMergePatch.mergePatchTask`) is a parameter of the partial update: its result or exception.
- JWT signing and verification (jjwt), the secret key and password hashing are parameters: the verifier's verdict.
- Bean validation: the REST handlers validate the entity `Task`, which declares no constraints, and the GraphQL mutations validate nothing; the DTO's constraints (`TaskDto.Violations`) are applied to no incoming request, so no handler checks them.
- Spring's own `PageRequest.of` and `Sort` argument checks (negative page, size 0, empty property) are not modelled; the pageable is a plain value.
- The greedy refill of 100 tokens per minute is a separate `Refill` step with the number of tokens as its argument; the clock is left out.
- Concurrency of `ConcurrentHashMap` and of the servlet container is not modelled; every call runs alone.
- The `@Cacheable`/`@CacheEvict` cache, timing and logging are left out; only the `cacheMisses` counter is kept.
- Java `Long`/`int` and JavaScript `number` are unbounded integers; overflow and `parseInt` beyond the safe range are not modelled.
- Strings are sequences of characters; UTF-16 surrogate pairs are not modelled. Java `trim` (every code point up to U+0020) and the white space `parseInt` skips (`IsJsWhiteSpace`) are modelled in full.
- The location link of a created task is the task id, not a rendered URI.
- Media-type matching of `consumes` is exact string equality; parameters and case-insensitive matching of media types are left out.
- `window.location.reload()` and the dialog's `onClose` callback are reduced to a `closed` flag.
- `getTaskById` and the GraphQL `task` query pass the repository's answer through; they are modelled as the `found` parameter of their callers.
- The login request, registration and `AuthenticationFilter` are not modelled, except for the header the filter issues (`IssuedHeader`).
- The STOMP `onConnect` subscription is reduced to `Deliver`: every subscriber is called with the notification.
- The notification timestamp is a `Date` on the server and a string on the client; it is an integer here and its format is left out.
- TaskService.Translate: states the class name and the cause's message inside the wrapping RuntimeException's message, not the whole `toString` of an IOException subclass, which would name that subclass.
- The controller's `catch (IOException)` around the partial update is not modelled: the service already wraps IOExceptions, so that clause never runs.
- The remaining React components (forms, dialogs, layout) only render and are not modelled.
