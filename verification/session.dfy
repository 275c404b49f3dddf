/** How the stored token ties the login screen, the route guard and the
    interceptor together: each reads the same `localStorage` entry. */
module Session {
  import opened Wrappers
  import opened Text
  import opened Storage
  import opened Http
  import AuthGuard
  import AuthInterceptor
  import Login

  /** For a request that has no `Authorization` header yet, the interceptor
      attaches one exactly when the guard would let a navigation through, and
      then its value is `Bearer ` and the stored token */
  lemma HeaderIffGuardAllows(store: Store, req: HttpRequest, url: string)
    requires "Authorization" !in req.headers
    ensures "Authorization" in AuthInterceptor.Intercept(store, req).headers
            <==> AuthGuard.CanActivate(store, url).allow
    ensures AuthGuard.CanActivate(store, url).allow ==>
              AuthInterceptor.Intercept(store, req).headers["Authorization"] == "Bearer " + StoredToken(store).value
  {
  }

  /** A login answered with success and a token opens every guarded route and
      makes every later request carry that token */
  lemma LoginSuccessOpensSession(s: Login.LoginState, store: Store, token: string, message: Option<string>,
                                 url: string, req: HttpRequest)
    requires token != ""
    ensures var r := Login.OnLoginResponse(s, store, Some(Login.LoginResponse(true, message, Some(token))));
            && AuthGuard.CanActivate(r.store, url).allow
            && AuthInterceptor.Intercept(r.store, req).headers["Authorization"] == "Bearer " + token
  {
  }

  /** Any other login answer leaves the guard's and the interceptor's
      decisions exactly as they were */
  lemma LoginFailureKeepsSession(s: Login.LoginState, store: Store, res: Option<Login.LoginResponse>,
                                 url: string, req: HttpRequest)
    requires Login.OnLoginResponse(s, store, res).navigation.None?
    ensures var r := Login.OnLoginResponse(s, store, res);
            && AuthGuard.CanActivate(r.store, url) == AuthGuard.CanActivate(store, url)
            && AuthInterceptor.Intercept(r.store, req) == AuthInterceptor.Intercept(store, req)
  {
  }

  /** After logout the guard sends every visitor to the login page and the
      interceptor forwards requests untouched */
  lemma LogoutClosesSession(store: Store, url: string, req: HttpRequest)
    ensures !AuthGuard.CanActivate(Logout(store), url).allow
    ensures AuthInterceptor.Intercept(Logout(store), req) == req
  {
  }
}
