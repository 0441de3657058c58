/**
 * The session lifecycle of app.py: the OAuth callback that opens a session
 * (`getAccessToken`), and the sign-out endpoint that closes it (`sign_out`).
 * The code-for-token exchange with the identity server and the JWT check
 * are not modelled; their outcome is an input.
 */
module Auth {
  import opened Wrappers
  import opened Roles
  import opened Web
  import opened Sessions

  /** How the token request and the JWT decoding ended. */
  datatype TokenExchange =
    | ExchangeFailed(reason: string)  // `requests` raised: no connection, or an error status from the identity server
    | NoTokenInReply                  // the JSON reply has no (or an empty) "token"
    | SignatureExpired                // `jwt.decode` raised `ExpiredSignatureError`
    | TokenInvalid                    // `jwt.decode` raised another `InvalidTokenError`
    | Decoded(sub: Option<string>)    // the verified claims, with their "sub" claim if any

  const CodeMissing := HttpException(400, "Authorization code not provided/missing.")
  const TokenNotRetrieved := HttpException(401, "Failed to retrieve token.")
  const InvalidToken := HttpException(401, "Invalid Token")
  const UsernameClaimMissing := HttpException(401, "Invalid Token: Missing Username")

  function FetchFailed(reason: string): HttpException
  {
    HttpException(500, "Error fetching token: " + reason)
  }

  /** The callback redirects a signed-in user here. */
  const DashboardUrl := "/dashboard"

  /**
   * The callback's decision before it touches the store: the user to open a
   * session for, or the exception it raises.
   */
  function AuthenticatedUser(code: Option<string>, exchange: TokenExchange): (r: Result<string, HttpException>)
    ensures (code == None || code == Some("")) ==> r == Err(CodeMissing)
    ensures r.Ok? <==> code.Some? && code.value != "" && exchange.Decoded? && exchange.sub.Some? && exchange.sub.value != ""
    ensures r.Ok? ==> r.value == exchange.sub.value
    ensures r.Err? ==> r.error.status == (if code == None || code == Some("") then 400 else if exchange.ExchangeFailed? then 500 else 401)
    ensures r == Err(TokenExpired) <==> code.Some? && code.value != "" && exchange == SignatureExpired
    ensures code.Some? && code.value != "" && exchange.ExchangeFailed? ==> r == Err(FetchFailed(exchange.reason))
    ensures code.Some? && code.value != "" && exchange == NoTokenInReply ==> r == Err(TokenNotRetrieved)
    ensures code.Some? && code.value != "" && exchange == TokenInvalid ==> r == Err(InvalidToken)
    ensures code.Some? && code.value != "" && exchange.Decoded? && (exchange.sub == None || exchange.sub == Some(""))
      ==> r == Err(UsernameClaimMissing)
  {
    if code == None || code.value == "" then Err(CodeMissing)
    else match exchange
      case ExchangeFailed(reason) => Err(FetchFailed(reason))
      case NoTokenInReply => Err(TokenNotRetrieved)
      case SignatureExpired => Err(TokenExpired)
      case TokenInvalid => Err(InvalidToken)
      case Decoded(sub) =>
        if sub == None || sub.value == "" then Err(UsernameClaimMissing) else Ok(sub.value)
  }

  /** The response to a successful callback: go to the dashboard, holding the new session id for a session's lifetime. */
  function SignedIn(sessionId: Token): Response
  {
    Redirect(DashboardUrl, 302, SetSessionCookie(sessionId, SessionTtl))
  }

  /**
   * `getAccessToken`. `freshId` is the id `uuid.uuid4()` draws; it is taken
   * to be non-empty and not already a key of the store.
   */
  method Callback(store: SessionStore, code: Option<string>, exchange: TokenExchange, freshId: Token) returns (o: Outcome)
    requires store.Valid()
    requires freshId != "" && freshId !in store.payloads
    modifies store
    ensures store.Valid()
    ensures store.State() == AfterCallback(old(store.State()), code, exchange, freshId)
    ensures o == match AuthenticatedUser(code, exchange)
      case Err(e) => Raised(e)
      case Ok(_) => Returned(SignedIn(freshId))
  {
    var user := AuthenticatedUser(code, exchange);
    if user.Err? {
      return Raised(user.error);
    }
    store.SetEx(freshId, SessionTtl, Payload(user.value, None));
    o := Returned(SignedIn(freshId));
  }

  /** The state of the store after the callback, as a value. */
  function AfterCallback(s: StoreState, code: Option<string>, exchange: TokenExchange, freshId: Token): (r: StoreState)
    ensures r.now == s.now
    ensures AuthenticatedUser(code, exchange).Err? ==> r == s
    ensures AuthenticatedUser(code, exchange).Ok? ==>
      && Lookup(r, freshId) == Some(Payload(exchange.sub.value, None))
      && freshId in r.expiresAt && r.expiresAt[freshId] == s.now + SessionTtl
    ensures forall t :: t != freshId ==> Lookup(r, t) == Lookup(s, t) && SameStamp(r, s, t)
    ensures WellFormed(s) ==> WellFormed(r)
  {
    match AuthenticatedUser(code, exchange)
    case Err(_) => s
    case Ok(user) => WithEntry(s, freshId, SessionTtl, Payload(user, None))
  }

  /** The response to signing out: go home and drop the cookie. */
  const SignedOut := Redirect(HomeUrl, 302, DeleteSessionCookie)

  /** `sign_out`: delete the presented session, if a non-empty id was presented. */
  method SignOut(store: SessionStore, token: Option<Token>) returns (r: Response)
    requires store.Valid()
    modifies store
    ensures store.Valid()
    ensures r == SignedOut
    ensures store.State() == AfterSignOut(old(store.State()), token)
  {
    if token.Some? && token.value != "" {
      store.Delete(token.value);
    }
    r := SignedOut;
  }

  /** The state of the store after signing out, as a value. */
  function AfterSignOut(s: StoreState, token: Option<Token>): (r: StoreState)
    ensures r.now == s.now
    ensures token.Some? && token.value != "" ==> Lookup(r, token.value) == None
    ensures forall t :: Some(t) != token ==> Lookup(r, t) == Lookup(s, t) && SameStamp(r, s, t)
    ensures WellFormed(s) ==> WellFormed(r)
  {
    if token.Some? && token.value != "" then WithoutEntry(s, token.value) else s
  }

  // ----- properties of the lifecycle -----

  /** A failed callback, for whatever reason, leaves the store as it was. */
  lemma FailedCallbackChangesNothing(s: StoreState, code: Option<string>, exchange: TokenExchange, freshId: Token)
    requires AuthenticatedUser(code, exchange).Err?
    ensures AfterCallback(s, code, exchange, freshId) == s
  {
  }

  /**
   * A successful callback adds exactly one session, under the fresh id, for
   * the token's subject, and every other id reads as before, now and at
   * every later time.
   */
  lemma CallbackAddsOneSession(s: StoreState, code: Option<string>, exchange: TokenExchange, freshId: Token)
    requires WellFormed(s) && freshId !in s.payloads
    requires AuthenticatedUser(code, exchange).Ok?
    ensures var r := AfterCallback(s, code, exchange, freshId);
      && r.payloads.Keys == s.payloads.Keys + {freshId}
      && r.payloads[freshId] == Payload(exchange.sub.value, None)
      && r.expiresAt[freshId] == s.now + SessionTtl
      && forall t, dt: nat :: t != freshId ==> ValidateOn(Elapse(r, dt), Some(t)) == ValidateOn(Elapse(s, dt), Some(t))
  {
    var r := AfterCallback(s, code, exchange, freshId);
    forall t, dt: nat | t != freshId
      ensures ValidateOn(Elapse(r, dt), Some(t)) == ValidateOn(Elapse(s, dt), Some(t))
    {
      SameEntrySameFuture(r, s, t, dt);
    }
  }

  /**
   * The session a callback opens validates, as the token's subject with the
   * role their name carries, for `SessionTtl` seconds; from then on its id
   * reads as expired.
   */
  lemma {:induction false} SessionLifetime(s: StoreState, code: Option<string>, exchange: TokenExchange, freshId: Token, dt: nat)
    requires WellFormed(s) && freshId != "" && freshId !in s.payloads
    requires AuthenticatedUser(code, exchange).Ok?
    ensures var user := exchange.sub.value;
      ValidateOn(Elapse(AfterCallback(s, code, exchange, freshId), dt), Some(freshId))
        == if dt < SessionTtl then Ok(Identity(user, GetRole(user))) else Err(TokenExpired)
  {
    var r := AfterCallback(s, code, exchange, freshId);
    var e := Elapse(r, dt);
    assert Lookup(r, freshId) == Some(Payload(exchange.sub.value, None));
    assert Lookup(e, freshId) == if Survives(r, freshId, dt) then Lookup(r, freshId) else None;
  }

  /** Time passing in several steps: a session alive after `a` seconds is alive for the remaining `b` exactly when `a + b` is under its lifetime. */
  lemma SessionLifetimeInSteps(s: StoreState, code: Option<string>, exchange: TokenExchange, freshId: Token, a: nat, b: nat)
    requires WellFormed(s) && freshId != "" && freshId !in s.payloads
    requires AuthenticatedUser(code, exchange).Ok?
    ensures ValidateOn(Elapse(Elapse(AfterCallback(s, code, exchange, freshId), a), b), Some(freshId)).Ok?
        <==> a + b < SessionTtl
  {
    ElapseAdditive(AfterCallback(s, code, exchange, freshId), a, b);
    SessionLifetime(s, code, exchange, freshId, a + b);
  }

  /**
   * After signing out, the id reads as expired (so the next page sends the
   * user home); every other session is untouched, now and at every later time.
   */
  lemma SignOutEndsOnlyThatSession(s: StoreState, token: Token, other: Token, dt: nat)
    requires token != "" && other != token
    ensures ValidateOn(AfterSignOut(s, Some(token)), Some(token)) == Err(TokenExpired)
    ensures ValidateOn(Elapse(AfterSignOut(s, Some(token)), dt), Some(token)) == Err(TokenExpired)
    ensures ValidateOn(Elapse(AfterSignOut(s, Some(token)), dt), Some(other)) == ValidateOn(Elapse(s, dt), Some(other))
  {
    var r := AfterSignOut(s, Some(token));
    assert Lookup(Elapse(r, dt), token) == None by {
      assert !Survives(r, token, dt);
    }
    SameEntrySameFuture(r, s, other, dt);
  }

  /** Signing out without a cookie, or with an empty one, leaves the store as it was. */
  lemma SignOutWithoutTokenChangesNothing(s: StoreState, token: Option<Token>)
    requires token == None || token == Some("")
    ensures AfterSignOut(s, token) == s
  {
  }

  /** The callback, sign-out and the passing of time keep the session invariant. */
  lemma LifecycleKeepsInvariant(s: StoreState, code: Option<string>, exchange: TokenExchange, freshId: Token, token: Option<Token>, dt: nat)
    requires SessionInvariant(s)
    ensures SessionInvariant(AfterCallback(s, code, exchange, freshId))
    ensures SessionInvariant(AfterSignOut(s, token))
    ensures SessionInvariant(Elapse(s, dt))
  {
    if AuthenticatedUser(code, exchange).Ok? {
      WithEntryKeepsInvariant(s, freshId, SessionTtl, Payload(exchange.sub.value, None));
    }
    if token.Some? && token.value != "" {
      WithoutEntryKeepsInvariant(s, token.value);
    }
    ElapseKeepsInvariant(s, dt);
  }

  /** An identity server that reports the JWT's signature as expired sends the user home, exactly as an expired session does. */
  lemma ExpiredJwtRedirectsHome(code: string)
    requires code != ""
    ensures AuthenticatedUser(Some(code), SignatureExpired) == Err(TokenExpired)
    ensures Respond(Raised(AuthenticatedUser(Some(code), SignatureExpired).error)) == Redirect(HomeUrl, 302, KeepCookie)
  {
  }
}
