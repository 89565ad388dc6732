/**
 * The slice of the servlet and Spring Security APIs the filters touch: a
 * response with a status, a body written through its writer and a closed
 * flag; the thread's security context; and what the rest of the filter
 * chain did when it was invoked.
 */
module Servlet {
  import opened Wrappers
  import opened Domain

  const ScOk: int := 200
  const ScBadRequest: int := 400
  const ScUnauthorized: int := 401
  const ScForbidden: int := 403
  const ScNotFound: int := 404

  /** How the downstream filters and handler finished. */
  datatype ChainOutcome = Completed | Threw(exception: Exception)

  class HttpServletResponse {
    var status: int
    /** Everything written through `getWriter()`. */
    var body: string
    /** Whether the writer has been closed; later writes are dropped. */
    var closed: bool

    constructor ()
      ensures status == ScOk && body == [] && !closed
    {
      status, body, closed := ScOk, [], false;
    }

    /** `setStatus(s)`: once the writer is closed the response is committed and the status stays. */
    method SetStatus(s: int)
      modifies this
      ensures status == (if old(closed) then old(status) else s)
      ensures body == old(body) && closed == old(closed)
    {
      if !closed {
        status := s;
      }
    }

    /** `getWriter().write(text)`: a closed writer ignores the text. */
    method Write(text: string)
      modifies this
      ensures body == if old(closed) then old(body) else old(body) + text
      ensures status == old(status) && closed == old(closed)
    {
      if !closed {
        body := body + text;
      }
    }

    method Close()
      modifies this
      ensures closed && status == old(status) && body == old(body)
    {
      closed := true;
    }
  }

  /** `UsernamePasswordAuthenticationToken(principal, credentials, authorities)`. */
  datatype Authentication = Authentication(principal: Option<string>, credentials: Option<string>, authorities: seq<string>)

  /** The thread's `SecurityContextHolder.getContext()`. */
  class SecurityContext {
    var authentication: Option<Authentication>

    constructor ()
      ensures authentication.None?
    {
      authentication := None;
    }

    method SetAuthentication(a: Authentication)
      modifies this
      ensures authentication == Some(a)
    {
      authentication := Some(a);
    }
  }
}
