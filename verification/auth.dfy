/** The route guard in front of the dashboard */
module AuthGuard {
  import opened Wrappers
  import opened Text
  import opened Storage
  import opened Router

  const LoginPath: string := "/login"

  datatype Decision = Decision(allow: bool, navigation: Option<Navigation>)

  /** Where a refused visitor is sent: the login page, remembering the target */
  function LoginRedirect(url: string): Navigation {
    Navigate([LoginPath], map["returnUrl" := url])
  }

  /** `authGuard(route, state)` with `state.url == url`: the stored token alone
      decides; a refusal navigates to the login page carrying the target URL */
  function CanActivate(store: Store, url: string): (d: Decision)
    ensures d.allow <==> StoredToken(store).Some? && StoredToken(store).value != ""
    ensures d.allow ==> d.navigation.None?
    ensures !d.allow ==> d.navigation == Some(Navigate(["/login"], map["returnUrl" := url]))
  {
    if Truthy(StoredToken(store)) then Decision(true, None)
    else Decision(false, Some(LoginRedirect(url)))
  }

  /** An empty stored token is no better than none: the guard treats storing ""
      exactly like logging out */
  lemma EmptyTokenIsAbsent(store: Store, url: string)
    ensures CanActivate(SetToken(store, ""), url) == CanActivate(Logout(store), url)
    ensures !CanActivate(SetToken(store, ""), url).allow
  {
  }
}

/** The HTTP interceptor that attaches the bearer token */
module AuthInterceptor {
  import opened Wrappers
  import opened Text
  import opened Storage
  import opened Http

  const AuthorizationHeader: string := "Authorization"

  function BearerValue(token: string): string {
    "Bearer " + token
  }

  /** `authInterceptor(req, next)`: the one request handed to `next`. Without a
      truthy token it is `req` itself; with one it is `req` carrying
      `Authorization: Bearer <token>` and otherwise unchanged. */
  function Intercept(store: Store, req: HttpRequest): (fwd: HttpRequest)
    ensures !Truthy(StoredToken(store)) ==> fwd == req
    ensures Truthy(StoredToken(store)) ==>
              && fwd.headers == req.headers["Authorization" := "Bearer " + StoredToken(store).value]
              && fwd.(headers := req.headers) == req
  {
    var token := StoredToken(store);
    if !Truthy(token) then req
    else req.(headers := req.headers[AuthorizationHeader := BearerValue(token.value)])
  }
}
