/**
 * The login dialog's submit handler: it reads the bearer header of the
 * login response, stores the token under "jwt" and closes, or shows an
 * error. The login request itself is a parameter: its outcome.
 */
module LoginDialog {
  import opened Wrappers
  import opened Text
  import opened Browser
  import opened SecurityConstants
  import Api

  const NoTokenError: string := "No token received."
  const LoginFailed: string := "Login failed"

  /** `headers['authorization'] || headers['Authorization']`: the lower-case name wins when non-empty. */
  function SelectHeader(lower: Option<string>, upper: Option<string>): (r: Option<string>)
    ensures Truthy(lower) ==> r == lower
    ensures !Truthy(lower) ==> r == upper
  {
    if Truthy(lower) then lower else upper
  }

  /**
   * The token of a bearer header: the header from index 7 on, when the
   * header is non-empty and starts with "Bearer "; none otherwise.
   */
  function ExtractToken(header: Option<string>): (r: Option<string>)
    ensures r.Some? <==> Truthy(header) && StartsWith(header.value, Bearer)
    ensures r.Some? ==> header.value == Bearer + r.value
  {
    if Truthy(header) && StartsWith(header.value, Bearer) then Some(header.value[7..]) else None
  }

  /** Reading the header the server issues gives back the token. */
  lemma ExtractIssued(token: string)
    ensures ExtractToken(Some(IssuedHeader(token))) == Some(token)
  {
    assert IssuedHeader(token)[..7] == Bearer;
  }

  /** What the login request gave: the response headers, or the failed request. */
  datatype LoginOutcome =
    | Responded(lowerHeader: Option<string>, upperHeader: Option<string>)
    | Failed(error: Api.HttpError)

  /** `err.response?.data?.message || 'Login failed'`. */
  function FailureMessage(error: Api.HttpError): (m: string)
    ensures m != ""
    ensures error.response.None? ==> m == LoginFailed
    ensures error.response.Some? && error.response.value.data.JsonBody? && Truthy(error.response.value.data.message) ==>
      m == error.response.value.data.message.value
    ensures m != LoginFailed ==>
      && error.response.Some? && error.response.value.data.JsonBody?
      && error.response.value.data.message == Some(m)
  {
    if error.response.Some? && error.response.value.data.JsonBody? && Truthy(error.response.value.data.message)
    then error.response.value.data.message.value
    else LoginFailed
  }

  class LoginDialogState {
    var loading: bool
    var error: Option<string>
    /** Whether `onClose` has been called. */
    var closed: bool

    constructor ()
      ensures !loading && error.None? && !closed
    {
      loading, error, closed := false, None, false;
    }

    /** The start of `handleLogin`: loading on, error cleared. */
    method Submit()
      modifies this
      ensures loading && error.None? && closed == old(closed)
    {
      loading := true;
      error := None;
    }

    /**
     * The rest of `handleLogin`: a non-empty token is stored under "jwt"
     * and the dialog closes; a response without one shows "No token
     * received."; a failed request shows its message or "Login failed".
     * Loading is off afterwards in every case.
     */
    method Settle(outcome: LoginOutcome, window: Window)
      modifies this, window
      ensures !loading
      ensures window.href == old(window.href)
      ensures outcome.Failed? ==>
        error == Some(FailureMessage(outcome.error)) && window.storage == old(window.storage) && closed == old(closed)
      ensures outcome.Responded? ==>
        var token := ExtractToken(SelectHeader(outcome.lowerHeader, outcome.upperHeader));
        if Truthy(token) then
          window.storage == old(window.storage)[JwtKey := token.value] && closed && error == old(error)
        else
          window.storage == old(window.storage) && error == Some(NoTokenError) && closed == old(closed)
    {
      match outcome {
        case Failed(e) =>
          error := Some(FailureMessage(e));
        case Responded(lower, upper) =>
          var authHeader := SelectHeader(lower, upper);
          var token: Option<string> := None;
          if Truthy(authHeader) && StartsWith(authHeader.value, Bearer) {
            token := Some(authHeader.value[7..]);
          }
          if Truthy(token) {
            window.SetItem(JwtKey, token.value);
            closed := true;
          } else {
            error := Some(NoTokenError);
          }
      }
      loading := false;
    }
  }

  /** The server's plain-text 401 body is not JSON, so the dialog shows "Login failed". */
  lemma PlainTextFailure(status: int, text: string)
    ensures FailureMessage(Api.HttpError(Some(Api.ErrorResponse(status, Api.TextBody(text))))) == LoginFailed
  {
  }

  /** A bare "Bearer " header yields an empty token, which counts as no token. */
  lemma EmptyTokenRejected()
    ensures ExtractToken(Some(Bearer)) == Some("") && !Truthy(ExtractToken(Some(Bearer)))
  {
  }
}
