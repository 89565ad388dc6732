/**
 * Properties that span the two sides: the bearer token's trip from the
 * login response through storage and the request interceptor to the
 * authorization filter; the patch content type; the sort string's trip
 * from the client's parameters to the server's sort; and how the client
 * reads the server's token rejections.
 */
module EndToEnd {
  import opened Wrappers
  import opened Text
  import opened Domain
  import opened SecurityConstants
  import opened Browser
  import Api
  import LoginDialog
  import JwtAuthorizationFilter
  import TaskController
  import TaskService

  /**
   * A non-empty token without spaces, issued by the login filter, read by
   * the login dialog, attached by the interceptor to any request, is the
   * token the authorization filter verifies.
   */
  lemma BearerRoundTrip(token: string, headers: Api.Headers)
    requires token != "" && ' ' !in token
    ensures var read := LoginDialog.ExtractToken(LoginDialog.SelectHeader(Some(IssuedHeader(token)), None));
      && read == Some(token)
      && JwtAuthorizationFilter.BearerToken(Some(Api.WithToken(headers, read)[Authorization])) == Some(token)
  {
    LoginDialog.ExtractIssued(token);
    JwtAuthorizationFilter.BearerTokenOfIssued(token);
  }

  /**
   * Without a stored token, a full update still carries an Authorization
   * header, but an empty one: the filter lets it through unauthenticated.
   */
  lemma UpdateWithoutTokenUnauthenticated(token: Option<string>)
    requires !Truthy(token)
    ensures JwtAuthorizationFilter.BearerToken(Some(Api.WithToken(Api.UpdateHeaders(token), token)[Authorization])).None?
  {
    Api.UpdateWithoutToken(token);
  }

  /** The content type the client's partial update sends is the one the PATCH handler consumes. */
  lemma PatchContentTypeAccepted(token: Option<string>, id: int, patch: map<string, string>)
    requires Truthy(token)
    ensures Api.PartialUpdateRequest(token, id, patch).Success?
    ensures Api.PartialUpdateRequest(token, id, patch).value.headers["Content-Type"] == TaskController.PatchMediaType
  {
  }

  /**
   * Whatever sort the client passes, the server builds the same pageable
   * from what it receives as from the client's argument: an empty sort
   * string is not sent, and the server treats a missing one like an empty one.
   */
  lemma ClientSortReachesServer(status: Option<Status>, priority: Option<Priority>, page: int, size: int, sort: Option<string>)
    ensures var received := Api.Lookup(Api.TaskParams(status, priority, page, size, sort), "sort");
      TaskService.PageableOf(page, size, received) == TaskService.PageableOf(page, size, sort)
  {
    Api.TaskParamsSort(status, priority, page, size, sort);
  }

  /**
   * The authorization filter rejects an expired token with a plain-text
   * 403 ("Invalid JWT token: " and the reason); the client looks for
   * "expired" in a JSON `message` only, so it never clears the stored
   * token or goes to the login page for it.
   */
  lemma ServerRejectionNotSeenAsExpiry(e: Exception)
    ensures !Api.IsExpiry(Api.HttpError(Some(Api.ErrorResponse(403, Api.TextBody(JwtAuthorizationFilter.RejectionBody(e))))))
  {
    Api.PlainTextNeverExpiry(403, JwtAuthorizationFilter.RejectionBody(e));
  }
}
