/**
 * The filter that turns a bearer header into an authenticated principal.
 * Token verification (key derivation, signature and expiry checks) is an
 * oracle: a function from the token to its verdict.
 */
module JwtAuthorizationFilter {
  import opened Wrappers
  import opened Text
  import opened Domain
  import opened Servlet
  import opened SecurityConstants

  /** What parsing and verifying a token gives: its subject, or the exception thrown. */
  datatype Verification = Verified(subject: Option<string>) | Rejected(exception: Exception)

  const RoleUser: string := "ROLE_USER"
  const InvalidTokenPrefix: string := "Invalid JWT token: "

  /**
   * The token the filter verifies: absent when the header is missing or
   * does not start with the bearer prefix; otherwise the header with every
   * occurrence of the prefix removed, not only the leading one.
   */
  function BearerToken(header: Option<string>): (r: Option<string>)
    ensures r.Some? <==> header.Some? && StartsWith(header.value, Bearer)
    ensures r.Some? ==> |r.value| <= |header.value| - |Bearer|
  {
    if header.None? || !StartsWith(header.value, Bearer) then None
    else
      var h := header.value;
      assert h == Bearer + h[|Bearer|..];
      Some(RemoveAll(h, Bearer))
  }

  /** The header the login filter issues gives back its token, for any token without a space. */
  lemma BearerTokenOfIssued(token: string)
    requires ' ' !in token
    ensures BearerToken(Some(IssuedHeader(token))) == Some(token)
  {
    var h := IssuedHeader(token);
    assert h[..|Bearer|] == Bearer;
    assert h[|Bearer|..] == token;
    RemoveAllAbsent(token, Bearer, ' ');
  }

  /** Inner occurrences of the prefix are removed as well, not only the leading one. */
  lemma InnerPrefixRemoved(a: string, b: string)
    requires ' ' !in a && ' ' !in b
    ensures BearerToken(Some(Bearer + a + Bearer + b)) == Some(a + b)
  {
    var h := Bearer + a + Bearer + b;
    assert h[..|Bearer|] == Bearer;
    assert h[|Bearer|..] == a + Bearer + b;
    assert Bearer[|Bearer| - 1] == ' ' && ' ' !in Bearer[..|Bearer| - 1];
    RemoveAllAfterFree(a, Bearer, b);
    RemoveAllAbsent(b, Bearer, ' ');
  }

  /** The 403 body written when verification, or anything after it, throws. */
  function RejectionBody(e: Exception): (body: string)
    ensures StartsWith(body, InvalidTokenPrefix)
    ensures body[|InvalidTokenPrefix|..] == MessageText(e.message)
  {
    InvalidTokenPrefix + MessageText(e.message)
  }

  /**
   * `doFilterInternal`. `verify` is the verdict for each token; `downstream`
   * is how the rest of the chain ends when it is invoked. Returns how many
   * times the chain was continued and the exception that leaves the filter.
   */
  method DoFilterInternal(header: Option<string>, verify: string -> Verification, downstream: ChainOutcome,
                          context: SecurityContext, response: HttpServletResponse)
    returns (chainCalls: nat, escaped: Option<Exception>)
    modifies context, response
    // no usable bearer header: the chain continues once, unauthenticated, and its exception passes through
    ensures BearerToken(header).None? ==>
      && chainCalls == 1
      && escaped == (if downstream.Threw? then Some(downstream.exception) else None)
      && context.authentication == old(context.authentication)
      && response.status == old(response.status) && response.body == old(response.body)
      && response.closed == old(response.closed)
    // a rejected token: 403 with the reason, the chain is not continued
    ensures BearerToken(header).Some? && verify(BearerToken(header).value).Rejected? ==>
      var e := verify(BearerToken(header).value).exception;
      && chainCalls == 0 && escaped.None?
      && context.authentication == old(context.authentication)
      && response.status == (if old(response.closed) then old(response.status) else ScForbidden) && response.closed
      && response.body == (if old(response.closed) then old(response.body) else old(response.body) + RejectionBody(e))
    // a verified token: principal = subject, authorities exactly [ROLE_USER], the chain continues once
    ensures BearerToken(header).Some? && verify(BearerToken(header).value).Verified? ==>
      && chainCalls == 1 && escaped.None?
      && context.authentication == Some(Authentication(verify(BearerToken(header).value).subject, None, [RoleUser]))
    // ... and a downstream exception is caught by the same handler
    ensures BearerToken(header).Some? && verify(BearerToken(header).value).Verified? && downstream.Completed? ==>
      response.status == old(response.status) && response.body == old(response.body)
      && response.closed == old(response.closed)
    ensures BearerToken(header).Some? && verify(BearerToken(header).value).Verified? && downstream.Threw? ==>
      && response.status == (if old(response.closed) then old(response.status) else ScForbidden) && response.closed
      && response.body == (if old(response.closed) then old(response.body) else old(response.body) + RejectionBody(downstream.exception))
  {
    if header.None? || !StartsWith(header.value, Bearer) {
      chainCalls := 1;
      escaped := if downstream.Threw? then Some(downstream.exception) else None;
      return;
    }
    var token := RemoveAll(header.value, Bearer);
    var caught: Option<Exception> := None;
    chainCalls := 0;
    match verify(token) {
      case Rejected(e) =>
        caught := Some(e);
      case Verified(user) =>
        context.SetAuthentication(Authentication(user, None, [RoleUser]));
        chainCalls := 1;
        if downstream.Threw? {
          caught := Some(downstream.exception);
        }
    }
    if caught.Some? {
      response.SetStatus(ScForbidden);
      response.Write(InvalidTokenPrefix + MessageText(caught.value.message));
      response.Close();
    }
    escaped := None;
  }
}
