/**
 * The request and response cookies the authentication layer reads and
 * writes. Headers, bodies and cookie attributes are not modelled.
 */
module Web {
  import opened Tokens

  /** An incoming request, seen through its cookies. */
  datatype Request = Request(cookies: map<string, Token>)

  /** What a response tells the client to do with one cookie. */
  datatype CookieDirective = Assign(value: Token) | Clear

  /** The response object FastAPI injects; cookie calls update it in place. */
  class Response {
    var cookies: map<string, CookieDirective>

    constructor ()
      ensures cookies == map[]
    {
      cookies := map[];
    }

    /** response.set_cookie(key, value) */
    method SetCookie(key: string, value: Token)
      modifies this
      ensures cookies == old(cookies)[key := Assign(value)]
    {
      cookies := cookies[key := Assign(value)];
    }

    /** response.delete_cookie(key) */
    method DeleteCookie(key: string)
      modifies this
      ensures cookies == old(cookies)[key := Clear]
    {
      cookies := cookies[key := Clear];
    }
  }
}
