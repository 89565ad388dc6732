/** The shared constants of the token scheme, and the header the login filter issues. */
module SecurityConstants {
  import opened Text

  /** Token lifetime in milliseconds: two hours. */
  const TokenExpiration: int := 7200000
  const Bearer: string := "Bearer "
  const Authorization: string := "Authorization"

  /**
   * The value of the `Authorization` header added to a successful login
   * response: the bearer prefix followed by the signed token.
   */
  function IssuedHeader(token: string): (h: string)
    ensures StartsWith(h, Bearer) && h[|Bearer|..] == token
    ensures |h| == 7 + |token|
  {
    Bearer + token
  }
}
