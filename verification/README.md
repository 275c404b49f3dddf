# Dashboard validators and screen state, modelled in Dafny

This project models the decision logic of an Angular administration dashboard
for a construction-project platform. The HTTP, DOM and router effects are
replaced by plain inputs and outputs. What remains is a handful of validators
and small state machines, each written as an immutable record with pure
transition functions:

- **Pass-key footer** (`PassKeyFooter`): a row of `digits` one-digit boxes.
  Each keystroke is cut down to its first ASCII digit and written into a slot
  buffer. The slots are joined into a code, and the code is sent for
  verification under a key type only when it is exactly `digits` long. Each
  verify response and each error becomes a message or a navigation.
- **Login** (`Login`): the email/password form. It covers Angular's
  `required`, `minLength(8)`, `maxLength(64)` and `pattern` validators on the
  password, the submit gate, the success handler that stores the token, and
  the error handler. The error handler first strips stale `server` errors from
  each control's error map, then classifies the failure as a 422 with field
  errors, a 401, or anything else.
- **After-pass-key screen** (`AfterPassKey`): owner/designer tab selectors and
  the key-box sanitiser. It also covers the payment modal, whose percent comes
  from the first `%` followed by digits in a due payment's title (50 when there
  is none).
- **Project data** (`ProjectData`): the edit toggle and `save` over
  (`isEdit`, pristine), and the five required controls.
- **Auth guard and interceptor** (`AuthGuard`, `AuthInterceptor`): two
  decisions taken from the token in `localStorage`. JavaScript truthiness
  applies, so an empty token counts as no token. `Session` proves how the
  login screen, the guard and the interceptor agree through that token.

Shared pieces: `Text` holds the JavaScript string behaviour the components
rely on. That is UTF-16 `length`, `trim`, `join('')`, the
`replace(/[^0-9]/g, '').slice(0, 1)` sanitiser, and decimal printing and
parsing. `Storage` holds `localStorage`. `Router` and `Http` hold the shapes of
navigations, requests and error responses.

The project-data screen has no per-section snapshot or dirty-flag
reconciliation: `core/services/project-data.ts` only wraps HTTP calls, and the
`ProjectData` component only toggles edit mode and marks the form pristine.

Two observations from the code:

- The guard puts the requested URL in `returnUrl`, but the login screen never
  reads it. After a successful login it always goes to `/dashboard`.
- The stale-error strip only fires when the `server` entry is truthy. A server
  message of `""` is therefore not stripped. Only a later 422 whose list for
  that same control is non-empty overwrites it. A 401 leaves it beside the new
  `invalid: true`, and a 422 naming only the other control leaves it too, so
  the control stays invalid until the user edits it. `Login.StripServer`
  models this as written.

## Model

| member | source | states |
|---|---|---|
| `Text.SanitizeDigit` | src/app/features/dashboard/pages/pass-key-footer/pass-key-footer.ts:43 | The kept value has at most one character, and that character is an ASCII digit. It is empty exactly when the raw input has no ASCII digit (Arabic-Indic digits are dropped). Otherwise it is the first ASCII digit of the input. |
| `Text.ParsePrintRoundTrip` | src/app/features/dashboard/pages/pass-key-footer/pass-key-footer.ts:76 | Reading back the decimal text that `${n}` produces gives `n` again. |
| `PassKeyFooter.Create` | src/app/features/dashboard/pages/pass-key-footer/pass-key-footer.ts:19-35 | A new footer keeps the bound `keyType` and `redirectTo`. It takes `digits` as bound, or 4 when the parent leaves it unbound. It is not loading, shows no message, and starts with an empty slot buffer, so it builds the empty code. |
| `PassKeyFooter.WireNamesDistinct` | src/app/core/services/keys.ts:7-10 | The three key types have three different `key_type` strings, so a key type and its wire name determine each other. |
| `PassKeyFooter.PassKeys` | src/app/features/dashboard/pages/pass-key-footer/pass-key-footer.ts:31-33 | `passKeys` has exactly `digits` entries, all empty. |
| `PassKeyFooter.WriteSlot` | src/app/features/dashboard/pages/pass-key-footer/pass-key-footer.ts:46 | A JavaScript array write puts `v` at `index` and grows the array past its end. Every other slot keeps the value it read as before, and a hole reads as "". |
| `PassKeyFooter.OnKeyInput` | src/app/features/dashboard/pages/pass-key-footer/pass-key-footer.ts:38-46 | Slot `index` gets the sanitised value and no other slot changes. The buffer grows to exactly `index + 1` when `index` is past its end and otherwise keeps its length. The error message is cleared and nothing else in the state changes. A buffer of well-formed slots stays well-formed. |
| `PassKeyFooter.BuildCodeOfSlots` | src/app/features/dashboard/pages/pass-key-footer/pass-key-footer.ts:64-67 | For well-formed slots, the code is the plain concatenation of the slots, because `trim` removes nothing. It contains only digits, one per filled slot, and its UTF-16 length equals its length. |
| `PassKeyFooter.Submit` | src/app/features/dashboard/pages/pass-key-footer/pass-key-footer.ts:69-82 | An accepted submit sends exactly one request, carrying the key type's wire name and the built code, and sets loading. A rejected one only sets the "enter N digits" message. For well-formed slots, the code is accepted exactly when `0 < digits` and exactly `digits` slots are filled. |
| `PassKeyFooter.SubmitNeedsEveryBox` | src/app/features/dashboard/pages/pass-key-footer/pass-key-footer.ts:75 | Suppose slots are only written below `digits`. Then the code is accepted exactly when all `digits` slots hold a digit, so a skipped or cleared box gets the code refused. |
| `PassKeyFooter.TypingAFullCodeSendsIt` | src/app/features/dashboard/pages/pass-key-footer/pass-key-footer.ts:38-82 | Type a `digits`-long string of digits into boxes 0, 1, … of a cleared footer, then submit. The request sent carries exactly that string. |
| `PassKeyFooter.OnVerifyResponse` | src/app/features/dashboard/pages/pass-key-footer/pass-key-footer.ts:83-91 | Loading stops. The handler navigates to `redirectTo` exactly when the response says success. Otherwise the message shown is non-empty: the response's own message when that is truthy, else "invalid code". |
| `PassKeyFooter.OnVerifyError` | src/app/features/dashboard/pages/pass-key-footer/pass-key-footer.ts:93-100 | Loading stops and a non-empty message is always shown. A truthy server message wins. Otherwise status 0 gives the connection message and any other status gives "invalid code". Nothing else changes. |
| `PassKeyFooter.ClearInputs` | src/app/features/dashboard/pages/pass-key-footer/pass-key-footer.ts:104-106 | The slot buffer and the message are emptied and nothing else changes. A submit right after is refused. |
| `Login.PasswordPolicy` | src/app/features/auth/login/login.ts:27-36 | A password passes `required`, `minLength(8)`, `maxLength(64)` and the literal lookahead pattern exactly when all of these hold: it is 8 to 64 UTF-16 code units long, it has no line terminator, and it contains `a-z`, `A-Z`, `0-9` and a character outside `[A-Za-z0-9]`. |
| `Login.Create` | src/app/features/auth/login/login.ts:21-37 | The form starts with both boxes empty and untouched, the password hidden, and each box's error map `{required: true}`, so it starts invalid. |
| `Login.TogglePassword` | src/app/features/auth/login/login.ts:39-41 | Flips the show-password flag and nothing else. |
| `Login.Submit` | src/app/features/auth/login/login.ts:51-61 | The banner is always cleared. An invalid form sends nothing, leaves loading alone and marks both controls touched. A valid form sets loading and sends the form's email and password. |
| `Login.SubmitSendsOnlyValidPasswords` | src/app/features/auth/login/login.ts:25-36 | In a consistent state, any request that passes the gate carries a non-empty email and a password meeting the whole policy. |
| `Login.EditEmail` | src/app/features/auth/login/login.ts:26 | Typing into the email box sets its value and replaces its whole error map with the validators' result. Any `server` or `invalid` entry is gone. The box is invalid exactly when the value is empty or fails the format check. The password box, the touched flag and the rest of the state are unchanged. |
| `Login.EditPassword` | src/app/features/auth/login/login.ts:27-35 | Typing into the password box sets its value and replaces its whole error map with the four validators' result. Any `server` or `invalid` entry is gone. The box is invalid exactly when the value fails the validators. The email box, the touched flag and the rest of the state are unchanged. |
| `Login.EditsKeepConsistent` | src/app/features/auth/login/login.ts:25-36 | Typing in either box keeps every validator error present in the control's error map. |
| `Login.ErrorHandlingKeepsConsistent` | src/app/features/auth/login/login.ts:80-109 | The error handler never removes a validator's error, because it strips only `server` and adds only `server` or `invalid`. |
| `Login.OnLoginResponse` | src/app/features/auth/login/login.ts:62-73 | Loading stops. The token is stored and the screen navigates to `/dashboard` exactly when `success` holds and the token is non-empty. Otherwise the store is untouched and the banner shows the response message, or the login-failed fallback. |
| `Login.StripServer` | src/app/features/auth/login/login.ts:80-87 | When the `server` entry is truthy, only that key is removed and every other key keeps its value. The result is `null` exactly when `server` was the only key. Otherwise the map is left as it was. |
| `Login.MergeKey` | src/app/features/auth/login/login.ts:94 | `{ ...(errors \|\| {}), key: v }` sets `key` to `v` and keeps every other key and value. |
| `Login.OnLoginError` | src/app/features/auth/login/login.ts:76-112 | On a 422 with an `errors` object, each non-empty list puts its first message under `server`, over the stripped map of its control. On a 401, the password gains `invalid: true` over its stripped map. Any other failure, including a 422 without `errors`, only strips. Each branch shows its message fallback, the banner is never empty, loading stops, and values and touched flags are kept. |
| `Login.RejectedCredentialsBlockResubmit` | src/app/features/auth/login/login.ts:90-109 | After a 401, or a 422 naming a field, the form is invalid and a further submit sends nothing. |
| `Login.EditingLiftsRejection` | src/app/features/auth/login/login.ts:84-108 | After any failure, retyping the password removes its `invalid` and `server` entries. Once both boxes hold values the validators accept, the next submit sends exactly those values, so the block after a 401 or 422 is lifted by editing. |
| `Login.ErrorHandlingIsIdempotent` | src/app/features/auth/login/login.ts:80-112 | Handling the same failure twice gives the same state as handling it once. A stale `server` error is replaced, never stacked. |
| `AfterPassKey.Create` | src/app/features/dashboard/pages/after-pass-key/after-pass-key.ts:46-48 | Every tab starts on `'owner'`, the screen keeps all six row lists it is given, the modal starts closed, and the modal holds its initial data. |
| `AfterPassKey.SelectorsFollowTabs` | src/app/features/dashboard/pages/after-pass-key/after-pass-key.ts:66-92 | Each of `subsList`, `outboxList` and `lettersList` gives the owner list on the owner tab and the designer list otherwise. When the two lists differ, the owner list is shown exactly on the owner tab. Each list depends only on its own tab. |
| `AfterPassKey.OnKeyInput` | src/app/features/dashboard/pages/after-pass-key/after-pass-key.ts:97-99 | The box keeps at most one character, and that character is an ASCII digit. The box is empty exactly when the input had no ASCII digit; otherwise it holds the first ASCII digit of the input. |
| `AfterPassKey.FindMarker` | src/app/features/dashboard/pages/after-pass-key/after-pass-key.ts:184 | Returns the leftmost position at or after `from` where `/%(\d+)/` can start, meaning a `%` directly followed by a digit. It returns none when there is no such position. |
| `AfterPassKey.DigitRunLength` | src/app/features/dashboard/pages/after-pass-key/after-pass-key.ts:184 | Greedy `\d+`: every character in the run is a digit, and the run ends at a non-digit or at the end of the string. |
| `AfterPassKey.ParsePercent` | src/app/features/dashboard/pages/after-pass-key/after-pass-key.ts:184-185 | The percent is the decimal value of the maximal digit run after the first `%` that is followed by a digit. It is 50 when there is no such `%`. |
| `AfterPassKey.PercentOfPrintedTitle` | src/app/features/dashboard/pages/after-pass-key/after-pass-key.ts:184-185 | Take a `%`-free prefix, then `%` and the printed number `n`, then any suffix that does not start with a digit. The percent parsed from that title is `n`. |
| `AfterPassKey.OpenPayModal` | src/app/features/dashboard/pages/after-pass-key/after-pass-key.ts:181-193 | The modal opens with `percent` read from the title and `projectCode` taken from the item. Every other modal field and the rest of the screen are unchanged. |
| `AfterPassKey.ClosePayModal` | src/app/features/dashboard/pages/after-pass-key/after-pass-key.ts:204-206 | The modal is closed and nothing else changes. |
| `AfterPassKey.ConfirmPay` | src/app/features/dashboard/pages/after-pass-key/after-pass-key.ts:208-211 | Confirming closes the modal and nothing else changes. |
| `AfterPassKey.LastOpenWins` | src/app/features/dashboard/pages/after-pass-key/after-pass-key.ts:187-191 | Opening the modal for `q` after `p` is the same as opening it for `q` alone. Reopening for the same item changes nothing. |
| `AfterPassKey.OpenThenCloseRestoresScreen` | src/app/features/dashboard/pages/after-pass-key/after-pass-key.ts:181-211 | Opening and then closing or confirming restores the screen, except for the modal data filled from the item. |
| `ProjectData.Create` | src/app/features/dashboard/pages/project-data/project-data.ts:15-33 | The form starts out of edit mode, pristine and valid, with every required control present. |
| `ProjectData.UserInput` | src/app/features/dashboard/pages/project-data/project-data.ts:17-33 | Typing changes only the one control's value and makes the form dirty. |
| `ProjectData.ToggleEdit` | src/app/features/dashboard/pages/project-data/project-data.ts:35-40 | Flips `isEdit`. Leaving edit mode marks the form pristine, and entering it leaves the pristine flag alone. Values never change. |
| `ProjectData.Save` | src/app/features/dashboard/pages/project-data/project-data.ts:42-46 | From any state and without a validity check, saving ends out of edit mode with the form pristine. Values never change. |
| `ProjectData.ToggleTwice` | src/app/features/dashboard/pages/project-data/project-data.ts:35-40 | Two toggles restore `isEdit` and the values. They restore the whole state when the form was pristine. |
| `ProjectData.SaveIsIdempotent` | src/app/features/dashboard/pages/project-data/project-data.ts:35-46 | Saving twice is the same as saving once. While editing, saving ends in the same state as toggling out of edit mode. |
| `ProjectData.OnlyRequiredControlsMatter` | src/app/features/dashboard/pages/project-data/project-data.ts:18-22 | Changing a control outside `owner`, `sector`, `type`, `name` and `scale` never changes validity. Emptying one of those five always makes the form invalid. |
| `Storage.SetToken` | src/app/core/services/auth.service.ts:47-49 | After `setToken(t)`, the stored token reads `t` and no other key changes. |
| `Storage.Logout` | src/app/core/services/auth.service.ts:55-57 | After `logout()`, the stored token reads `null` and no other key changes. |
| `AuthGuard.CanActivate` | src/app/core/guards/auth-guard.ts:5-16 | The guard allows exactly when the stored token is present and non-empty, and then issues no navigation. Otherwise it navigates to `/login` with `returnUrl` set to the requested URL. |
| `AuthGuard.EmptyTokenIsAbsent` | src/app/core/guards/auth-guard.ts:9 | A stored empty token is refused, exactly as if no token were stored. |
| `AuthInterceptor.Intercept` | src/app/core/interceptors/auth.interceptor.ts:3-11 | With no truthy token the request is forwarded unchanged. With one, the forwarded request differs only by the header `Authorization: Bearer <token>`. |
| `Session.HeaderIffGuardAllows` | src/app/core/interceptors/auth.interceptor.ts:5 | For a request without an `Authorization` header, the interceptor attaches one exactly when the guard would allow navigation for the same store. The header's value is `Bearer` plus the token. |
| `Session.LoginSuccessOpensSession` | src/app/features/auth/login/login.ts:64-65 | After a successful login carrying a non-empty token, the guard allows every URL and every request carries `Bearer <token>`. |
| `Session.LoginFailureKeepsSession` | src/app/features/auth/login/login.ts:73 | A login response that does not navigate changes neither the guard's decision nor the interceptor's. |
| `Session.LogoutClosesSession` | src/app/core/services/auth.service.ts:55-57 | After logout, the guard refuses and the interceptor forwards requests untouched. |

## Left out

- DOM and browser effects are not modelled:
  - focus moves via `nextElementSibling` and `previousElementSibling`, and both `onKeyDown` handlers, which only move focus;
  - writing the sanitised value back into the input element;
  - `querySelectorAll` and focus in `clearInputs`;
  - `markAllAsTouched` beyond a touched flag per control;
  - `NgZone.run`.
- The `setTimeout` and one-shot Escape-key listener in `openPayModal` are not modelled. Only the state change of the eventual `closePayModal` is.
- HTTP calls (`AuthService.login`, `KeysService.verify`) are foreign calls. Their responses and `HttpErrorResponse`s are inputs to the handlers.
- `localStorage` is a string-to-string map. Storage failures and quota limits are not modelled.
- Angular's built-in email regex is not part of this model. Each email edit supplies its verdict as the boolean `formatOk`.
- `AfterPassKey.ParsePercent`: `Number()` on the digit run is a double. The model returns the exact natural number, so precision loss on runs longer than 15 digits is not modelled.
- `PassKeyFooter.OnKeyInput`: the slot index is a natural number. A negative or fractional index, which on a JavaScript array sets a property that `join` ignores, is not modelled.
- `PassKeyFooter.Create`: `digits` is a natural number. A negative or fractional `@Input` value is not modelled.
- `AuthInterceptor.Intercept`: `HttpHeaders` treats header names case-insensitively. The model keys headers by their exact name.
- The interceptor calls `next` exactly once by construction: `Intercept` returns the one request it forwards.
- The guard never changes the token by construction: `CanActivate` reads the store and returns no store.
- Tab switching happens in the component templates, which are not part of this model. Only the selectors over the tabs are modelled.
- The mock row lists, inbox items and top-bar strings of the after-pass-key screen are fixtures. `AfterPassKey.Create` takes the row lists as parameters. The initial modal data is kept because `openPayModal` updates it.
- The project-data screen has no backend call in `save` and no per-section snapshot or dirty reconciliation, so neither is modelled.
- The after-pass-key screen's `passKeys = new Array(5)` only sizes the template's five boxes. What each box keeps is modelled by `AfterPassKey.OnKeyInput`.
- Route tables (`app.routes.ts`, `dashboard-routing.module.ts`, `dashboard.module.ts`), the timer-driven loader in `app.ts`, `home.ts`, `after-pass-key-management.ts` and the `*.spec.ts` smoke tests are not part of this model.
