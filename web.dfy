/**
 * The HTTP vocabulary of app.py: the exceptions handlers raise, the
 * responses they return, and the application's handler for `HTTPException`.
 */
module Web {
  import opened Wrappers
  import opened Roles

  /** Where the application sends signed-out and expired users. */
  const HomeUrl := "https://168.138.178.200"

  /** FastAPI's `HTTPException(status_code, detail)`. */
  datatype HttpException = HttpException(status: int, detail: string)

  /** The one exception the handler turns into a redirect. */
  const TokenExpired := HttpException(401, "Token has expired")

  /** The `user` dictionary `validate_session` hands to a page: `{"username": ..., "role": ...}`. */
  datatype Identity = Identity(username: string, role: Option<Role>)

  /** What a response does to the `session_token` cookie. */
  datatype CookieAction =
    | KeepCookie
    | SetSessionCookie(value: string, maxAge: nat)
    | DeleteSessionCookie

  datatype Response =
    | Redirect(url: string, status: int, cookie: CookieAction)
    | Json(status: int, detail: string)
    | UserPage(template: string, user: Identity)

  /** A handler either returns a response or raises an `HTTPException`. */
  datatype Outcome = Returned(response: Response) | Raised(exception: HttpException)

  /**
   * `custom_http_exception_handler`: an expired token sends the browser home;
   * every other exception becomes a JSON body `{"detail": ...}` under its own status.
   */
  function HandleHttpException(e: HttpException): (r: Response)
    ensures r.Redirect? <==> e.status == 401 && e.detail == "Token has expired"
    ensures r.Redirect? ==> r == Redirect(HomeUrl, 302, KeepCookie)
    ensures !r.Redirect? ==> r == Json(e.status, e.detail)
  {
    if e.status == 401 && e.detail == "Token has expired" then Redirect(HomeUrl, 302, KeepCookie)
    else Json(e.status, e.detail)
  }

  /** What the client receives: a raised exception goes through the handler above. */
  function Respond(o: Outcome): (r: Response)
    ensures o.Returned? ==> r == o.response
    ensures o.Raised? ==> !r.UserPage?
    ensures o.Raised? ==> (r.Redirect? <==> o.exception == TokenExpired)
    ensures o.Raised? && r.Redirect? ==> r == Redirect(HomeUrl, 302, KeepCookie)
    ensures o.Raised? && r.Json? ==> r.status == o.exception.status && r.detail == o.exception.detail
  {
    match o
    case Returned(r) => r
    case Raised(e) => HandleHttpException(e)
  }

  /** The handler loses nothing: distinct exceptions other than an expired token give distinct responses. */
  lemma HandlerInjectiveOffExpiry(e1: HttpException, e2: HttpException)
    requires e1 != TokenExpired && e2 != TokenExpired
    requires HandleHttpException(e1) == HandleHttpException(e2)
    ensures e1 == e2
  {
  }
}
