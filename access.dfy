/**
 * The access gate of the three billing pages (`get_bill_payment`,
 * `get_bill_retrieval`, `get_bill_adjustment` in app.py). Each page first
 * resolves the session cookie and then asks the access controller whether
 * the user's role may use the page's function. The controller's policy
 * (loaded from `access.cfg`) is not part of this model: it is the parameter
 * `isAllowed`, any relation between roles and function names.
 */
module Access {
  import opened Wrappers
  import opened Roles
  import opened Web
  import opened Sessions

  /** The pages behind the gate. */
  datatype GatedPage = BillPayment | BillRetrieval | BillAdjustments {

    /** The path the page is served at. */
    function Route(): string
    {
      match this
      case BillPayment => "/bill-payment"
      case BillRetrieval => "/bill-retrieval"
      case BillAdjustments => "/bill-adjustments"
    }

    /** The function name the page asks the access controller about. */
    function FunctionName(): string
    {
      match this
      case BillPayment => "/bill-payment"
      case BillRetrieval => "/bill-retrieval"
      case BillAdjustments => "/bill-adjustment"
    }

    function Template(): string
    {
      match this
      case BillPayment => "bill_payment.html"
      case BillRetrieval => "bill_retrieval.html"
      case BillAdjustments => "bill_adjustments.html"
    }
  }

  const Forbidden := HttpException(403, "Forbidden")

  /** The check a page makes once the user is known: render, or raise 403. */
  function Gate(user: Identity, page: GatedPage, isAllowed: (Option<Role>, string) -> bool): (o: Outcome)
    ensures o == Returned(UserPage(page.Template(), user)) <==> isAllowed(user.role, page.FunctionName())
    ensures !isAllowed(user.role, page.FunctionName()) <==> o == Raised(Forbidden)
  {
    if isAllowed(user.role, page.FunctionName()) then Returned(UserPage(page.Template(), user))
    else Raised(Forbidden)
  }

  /** A gated page as a whole: the session check, then the gate, then the exception handler. */
  function ServeGatedOn(s: StoreState, token: Option<Token>, page: GatedPage, isAllowed: (Option<Role>, string) -> bool): (r: Response)
    ensures r.Redirect? <==> ValidateOn(s, token) == Err(TokenExpired)
    ensures r.Redirect? ==> r == Redirect(HomeUrl, 302, KeepCookie)
    ensures r == Json(403, "Forbidden")
      <==> ValidateOn(s, token).Ok? && !isAllowed(ValidateOn(s, token).value.role, page.FunctionName())
    ensures r.Json? ==> r.status == 401 || r.status == 403
    ensures r.Json? && r != Json(403, "Forbidden") ==> r.status == 401
    ensures ValidateOn(s, token).Err? && r.Json? ==> r == Json(401, ValidateOn(s, token).error.detail)
  {
    match ValidateOn(s, token)
    case Err(e) => HandleHttpException(e)
    case Ok(user) => Respond(Gate(user, page, isAllowed))
  }

  /** A GET request for `page` presenting cookie `token`. */
  method ServeGatedPage(store: SessionStore, token: Option<Token>, page: GatedPage, isAllowed: (Option<Role>, string) -> bool)
    returns (r: Response)
    ensures r == ServeGatedOn(store.State(), token, page, isAllowed)
  {
    var user := ValidateSession(store, token);
    if user.Err? {
      return HandleHttpException(user.error);
    }
    var outcome := Gate(user.value, page, isAllowed);
    r := Respond(outcome);
  }

  /**
   * The page renders exactly when the session resolves to a user whose role
   * the controller allows for the page's function; it then shows that user.
   */
  lemma RendersIffAllowed(s: StoreState, token: Option<Token>, page: GatedPage, isAllowed: (Option<Role>, string) -> bool)
    ensures ServeGatedOn(s, token, page, isAllowed).UserPage?
        <==> ValidateOn(s, token).Ok? && isAllowed(ValidateOn(s, token).value.role, page.FunctionName())
    ensures ServeGatedOn(s, token, page, isAllowed).UserPage? ==>
        ServeGatedOn(s, token, page, isAllowed) == UserPage(page.Template(), ValidateOn(s, token).value)
  {
  }

  /** A signed-in user the controller refuses gets a 403 JSON body. */
  lemma RefusedUserGetsForbidden(s: StoreState, token: Option<Token>, page: GatedPage, isAllowed: (Option<Role>, string) -> bool)
    requires ValidateOn(s, token).Ok? && !isAllowed(ValidateOn(s, token).value.role, page.FunctionName())
    ensures ServeGatedOn(s, token, page, isAllowed) == Json(403, "Forbidden")
  {
  }

  /** An unknown or expired session id sends the browser home, whatever the policy. */
  lemma ExpiredSessionRedirectsHome(s: StoreState, token: Token, page: GatedPage, isAllowed: (Option<Role>, string) -> bool)
    requires token != "" && token !in s.payloads
    ensures ServeGatedOn(s, Some(token), page, isAllowed) == Redirect(HomeUrl, 302, KeepCookie)
  {
  }

  /** Without a cookie the page answers 401 with a JSON body, and the controller is never asked. */
  lemma MissingCookieIsUnauthorized(s: StoreState, page: GatedPage, isAllowed: (Option<Role>, string) -> bool)
    ensures ServeGatedOn(s, None, page, isAllowed) == Json(401, "Not authenticated. Session token missing")
    ensures ServeGatedOn(s, Some(""), page, isAllowed) == Json(401, "Not authenticated. Session token missing")
  {
  }

  /** The decision depends on the role alone: two users with the same role are treated alike. */
  lemma GateDependsOnRoleOnly(u1: Identity, u2: Identity, page: GatedPage, isAllowed: (Option<Role>, string) -> bool)
    requires u1.role == u2.role
    ensures Gate(u1, page, isAllowed).Returned? <==> Gate(u2, page, isAllowed).Returned?
  {
  }

  /**
   * The adjustments page asks about "/bill-adjustment", which is not its own
   * path "/bill-adjustments"; the other two pages ask about their own path.
   */
  lemma AdjustmentFunctionNameIsNotItsRoute(page: GatedPage)
    ensures page.FunctionName() == page.Route() <==> page != BillAdjustments
  {
    assert BillAdjustments.FunctionName() != BillAdjustments.Route() by {
      assert |BillAdjustments.FunctionName()| != |BillAdjustments.Route()|;
    }
  }
}
