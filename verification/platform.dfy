/** The browser's `localStorage`, reduced to the string-to-string map it is.
    Every component reads and writes the session token under one key. */
module Storage {
  import opened Wrappers

  type Store = map<string, string>

  /** The key under which the session token is kept */
  const TokenKey: string := "token"

  /** `localStorage.getItem(key)`: `null` when the key is missing */
  function GetItem(store: Store, key: string): Option<string> {
    if key in store then Some(store[key]) else None
  }

  /** `localStorage.getItem('token')` */
  function StoredToken(store: Store): Option<string> {
    GetItem(store, TokenKey)
  }

  /** `AuthService.setToken`: stores the token and touches no other key */
  function SetToken(store: Store, token: string): (r: Store)
    ensures StoredToken(r) == Some(token)
    ensures forall k :: k != TokenKey ==> GetItem(r, k) == GetItem(store, k)
  {
    store[TokenKey := token]
  }

  /** `AuthService.logout`: forgets the token and touches no other key */
  function Logout(store: Store): (r: Store)
    ensures StoredToken(r).None?
    ensures forall k :: k != TokenKey ==> GetItem(r, k) == GetItem(store, k)
  {
    store - {TokenKey}
  }
}

/** Router calls, recorded as values instead of performed */
module Router {

  datatype Navigation =
    /** `router.navigate(commands, { queryParams })` */
    | Navigate(commands: seq<string>, queryParams: map<string, string>)
    /** `router.navigateByUrl(url)` */
    | NavigateByUrl(url: string)
}

/** The shapes of HTTP traffic the components see */
module Http {
  import opened Wrappers

  /** An outgoing request; only the header map is touched by the model */
  datatype HttpRequest = HttpRequest(
    verb: string,
    url: string,
    headers: map<string, string>,
    body: string)

  /** Per-field validation messages of a 422 body (`error.errors`) */
  datatype FieldErrors = FieldErrors(email: Option<seq<string>>, password: Option<seq<string>>)

  /** The parsed body of a failed response (`err.error`) */
  datatype ErrorBody = ErrorBody(message: Option<string>, errors: Option<FieldErrors>)

  /** `HttpErrorResponse`: status 0 means the server was not reached */
  datatype HttpErrorResponse = HttpErrorResponse(status: int, body: Option<ErrorBody>)

  /** `err?.error?.message` */
  function ErrorMessage(err: HttpErrorResponse): Option<string> {
    if err.body.Some? then err.body.value.message else None
  }
}
