# Auth reducer and request interceptor — a Dafny model

This project models the two pieces of pure logic at the centre of the
application shell's authenticated session:

- the Redux **auth reducer** (`src/redux/reducers/authReducer.js`), a
  two-state machine (anonymous / authenticated) that `LOGIN_SUCCESS` and
  `LOGOUT` actions drive, and which passes every other action through;
- the shared HTTP client's **request interceptor**
  (`src/services/api.service.js`). It is meant to read the token cookie and,
  when the token is truthy, set `Authorization: Bearer <token>` on each
  outgoing request. As written it calls an unbound `getTokenFromCookie`
  (see "## Findings").
  It also covers the endpoint table `path()` and the `baseUrl + path` URLs.

Files:

- `wrappers.dfy`: module `Wrappers`. `Option` stands for a JavaScript value that may be missing; `Result` stands for a throw or a rejection. For the user and token fields `None` is `null` or `undefined`; for the reducer's `state` argument it is `undefined` only.
- `auth_reducer.dfy`: module `AuthReducer`.
  - `AuthState` holds the three auth fields plus a `rest` map with every other field of the state object.
  - `Action` is `LoginSuccess(user, token) | Logout | Other(tag)`. The wire form `WireAction` is decoded into it.
  - `Step` is the reducer on a decoded action. `Reduce` is `authReducer(state = initialAuthState, action)`.
  - `ReduceObject` is the same switch written on plain objects with an explicit object spread. It is the independent reference that `Step` is proved against.
  - `Run` folds a sequence of actions.
- `api_service.dfy`: module `ApiService`. It holds the endpoint table, the URL construction and the interceptor's two callbacks (`AttachToken`, `OnRejected`, combined in `Intercept`).
- `session.dfy`: module `Session`. It has scenarios joining the two halves, under the assumption that the caller keeps the token cookie equal to the store's token.

Modelling choices:

- The cookie's token is a parameter `Option<string>` of the interceptor. `""` counts as absent, because JavaScript treats it as falsy.
- `LOGIN_SUCCESS` without a payload throws a TypeError at `action.payload.user`. The model returns `Failure(MissingPayload)` for it.
- A login or logout keeps every other field of the state, because of `...state`; `rest` is always carried over.
- The code has no token store with put/get/clear operations; the interceptor's token is a parameter.

## Model

| member | source | states |
|---|---|---|
| AuthReducer.Decode | src/redux/reducers/authReducer.js:8-15 | Dispatch on `action.type` fails exactly for a `LOGIN_SUCCESS` without a payload. Otherwise the decoded action keeps the wire tag and the payload's user and token, and `Other` never carries one of the two named tags. |
| AuthReducer.DecodeEncode | src/redux/reducers/authReducer.js:8-19 | Every canonical action, once dispatched as an action object, is decoded back to itself. |
| AuthReducer.Step | src/redux/reducers/authReducer.js:9-19 | LOGIN_SUCCESS sets authenticated with the payload's user and token. LOGOUT clears all three fields whatever the prior state. An unknown tag returns the state unchanged. The other fields are kept in every case. |
| AuthReducer.Reduce | src/redux/reducers/authReducer.js:1-21 | An undefined state starts from `{isAuthenticated:false, user:null, token:null}`. The result for each of the three arms and the missing-payload error are stated in terms of the input state and the action object. |
| AuthReducer.FromObject | src/redux/reducers/authReducer.js:1-5 | Reading a plain object as a state, when it has the three auth fields with the right kinds of value, yields a state whose other fields avoid the auth keys. |
| AuthReducer.ObjectRoundTrip | src/redux/reducers/authReducer.js:1-5 | Reading a well-formed state's plain object back gives the same state. |
| AuthReducer.FromObjectRoundTrip | src/redux/reducers/authReducer.js:1-5 | Every object that reads as a state is exactly that state's object; with `ObjectRoundTrip`, the record loses nothing of the JavaScript object. |
| AuthReducer.ReduceObjectMatchesStep | src/redux/reducers/authReducer.js:8-19 | On any object that reads as a state, the spread-based reducer yields an object that reads as the record transition's result. |
| AuthReducer.Spread | src/redux/reducers/authReducer.js:10-14 | `{...obj, isAuthenticated, user, token}` has the old keys plus the three auth keys, holds the new auth values, and keeps every other field's value. |
| AuthReducer.ReduceObject | src/redux/reducers/authReducer.js:8-19 | On the plain object, every non-auth key is present after the reducer iff it was before, with the same value. |
| AuthReducer.StepMatchesObjectSpread | src/redux/reducers/authReducer.js:10-17 | The record transition agrees exactly with the object-spread reducer on every action. |
| AuthReducer.AuthActionOverrides | src/redux/reducers/authReducer.js:9-17 | A LOGIN_SUCCESS or LOGOUT after any action gives the same state as that action alone. |
| AuthReducer.Idempotent | src/redux/reducers/authReducer.js:9-17 | LOGOUT twice equals LOGOUT once. The same LOGIN_SUCCESS(u, t) twice equals it once. |
| AuthReducer.StepPreservesConsistent | src/redux/reducers/authReducer.js:9-19 | Each transition with a complete payload keeps isAuthenticated ⇔ user present ⇔ token present. |
| AuthReducer.IncompletePayloadBreaksInvariant | src/redux/reducers/authReducer.js:12-14 | The reducer does not validate payloads. A LOGIN_SUCCESS with a null user yields an authenticated state with a token and no user. |
| AuthReducer.RunAppend | src/redux/reducers/authReducer.js:7-21 | Dispatching `xs` then `ys` equals dispatching `xs + ys`. |
| AuthReducer.RunPreservesConsistent | src/redux/reducers/authReducer.js:7-20 | From any consistent state, every sequence of actions with complete payloads ends in a consistent state. |
| AuthReducer.InitialRunConsistent | src/redux/reducers/authReducer.js:1-20 | From the initial state, after any action sequence with complete LOGIN_SUCCESS payloads, isAuthenticated ⇔ user ≠ null ⇔ token ≠ null. |
| AuthReducer.LastAuthIndex | src/redux/reducers/authReducer.js:8-17 | Finds the last LOGIN_SUCCESS/LOGOUT of a sequence: it is one, and nothing after it is one. With none found, the sequence contains no such action. |
| AuthReducer.LastWriterWins | src/redux/reducers/authReducer.js:8-20 | After any sequence, the auth fields are those written by its last LOGIN_SUCCESS/LOGOUT, or the starting ones when there is none. The other fields equal the starting ones. |
| ApiService.EndpointPaths | src/services/api.service.js:4-10 | `path()` returns the signup, login and users paths, all under `/api/v1/`. |
| ApiService.PathsDistinct | src/services/api.service.js:4-10 | The signup, login and users paths are pairwise distinct. |
| ApiService.Url | src/services/api.service.js:33-40 | `baseUrl + path` starts with `baseUrl`, and what follows it is exactly `path`. |
| ApiService.PathOf | src/services/api.service.js:3-3 | Any path recovered from a URL rebuilds that URL on `baseUrl`. |
| ApiService.UrlRoundTrip | src/services/api.service.js:33-33 | `baseUrl + path` gives back exactly `path` when the base is stripped. |
| ApiService.AuthUrls | src/services/api.service.js:33-40 | The login URL is `http://localhost:1221/api/v1/login` and the signup URL is `http://localhost:1221/api/v1/signup`. Each strips back to its own path, and the two differ. |
| ApiService.StripBearerInverse | src/services/api.service.js:23-23 | An `Authorization` value yields token `t` under the bearer scheme iff it is `"Bearer " + t`. |
| ApiService.AttachToken | src/services/api.service.js:20-26 | With a truthy token, `Authorization` maps to `"Bearer " + token` and strips back to that token. It is the only key added or changed, and URL and other options are kept. A falsy token returns the config unchanged. |
| ApiService.OnRejected | src/services/api.service.js:27-29 | The rejection callback rejects with the very error it received. |
| ApiService.Intercept | src/services/api.service.js:19-30 | A rejected request passes through with the same error. A request being built keeps its URL, its other options and every header other than `Authorization`; it gains an `Authorization` header that strips back to the token when the token is truthy, and no other header is added; it is unchanged otherwise. |
| ApiService.AttachTokenIdempotent | src/services/api.service.js:19-26 | Running the interceptor twice with the same token equals running it once. |
| ApiService.AttachTokenOverwrites | src/services/api.service.js:23-23 | An earlier `Authorization` value has no effect on the result: it is replaced, not kept or appended to. |
| ApiService.AuthorizationPresence | src/services/api.service.js:22-25 | After the interceptor, the request has `Authorization` iff the token was truthy or the request already had one. |
| ApiService.DefaultContentTypeKept | src/services/api.service.js:14-16 | A request built with the client's default headers still has `Content-Type: application/json` after the interceptor. |
| ApiService.InterceptAsWritten | src/services/api.service.js:19-30 | As written, an upstream rejection passes through, and every request being built is rejected with a ReferenceError naming `getTokenFromCookie`. |
| ApiService.AsWrittenRejectsEveryRequest | src/services/api.service.js:21-21 | For every request config, the as-written interceptor rejects it with a ReferenceError naming `getTokenFromCookie`, while the corrected one (`Intercept`) fulfils it. |
| Session.LoginLogoutScenario | src/redux/reducers/authReducer.js:9-17 | LOGIN_SUCCESS{user, token} from the undefined state gives `{true, user, token}`, and a request then carries `Bearer token`. A following LOGOUT returns to the initial state, and the next request carries no credential. |
| Session.EmptyTokenSendsNoCredential | src/services/api.service.js:22-22 | A LOGIN_SUCCESS with token `""` yields a consistent authenticated state whose requests carry no credential. |
| Session.CredentialFollowsState | src/services/api.service.js:21-23 | Take a consistent state with a non-empty token. When authenticated, its requests carry a bearer header that strips back to the state's token. When anonymous, they carry none. |

## Left out

- `userLogin` and `createUser` (src/services/api.service.js:32-47) are left out: they are asynchronous network calls. Both use the bare `axios`, not the shared client, so the interceptor never runs for them. Only their URLs are modelled.
- `createUser` returns a caught error as an ordinary value. That promise-handling detail is not modelled.
- Cookie access through `js-cookie` is an environment-dependent store. The token it would return is a parameter of the interceptor.
- `axios.create` and its request pipeline are library code. Only the default `Content-Type` header is modelled, as `DefaultHeaders`.
- Header names are exact map keys. The case-insensitive header handling of axios is not modelled.
- `null` and `undefined` are not distinguished in the user and token fields. Both are `None`.
- AuthReducer.Reduce: a `null` state is not modelled. `None` for `state` means `undefined` only, which selects `initialAuthState`. In JavaScript `authReducer(null, action)` returns `null` for an unknown tag and spreads `null` as an empty object in the other two arms.
- Equality in every lemma is structural (value equality). JavaScript object identity is not modelled: the default arm returns the same object, while both spread arms always return a fresh one, so a repeated LOGOUT is a no-op by value but not by `!==`.
- The reducer's token is a string. A non-string token in a payload is not modelled.
- Action objects that are not objects, or payloads that are not objects, are not modelled. Redux only dispatches plain objects.
- `src/redux/store.js`, `src/context/userContext.js` and `src/ui/button/button.jsx` are store wiring, a stub context and UI rendering. None of them is part of this model.
- State values are JSON-like with integer numbers: `undefined`, non-integer numbers and functions cannot appear in `rest` or as a user. The reducer only copies these values, so its behaviour is unaffected.
- Concurrency is not modelled: in-flight logins racing a logout come from the asynchronous runtime, not from the code modelled here.
- The `Session` lemmas assume the caller keeps the cookie equal to the store's token. Neither `authReducer.js` nor `api.service.js` writes the token cookie.

## Findings

| source | as written | input that shows it | evidently intended | confidence | as-written member | corrected member |
|---|---|---|---|---|---|---|
| src/services/api.service.js:21 | the fulfilment callback calls `getTokenFromCookie()`, which the module neither defines nor imports (the module imports only `axios` and `Cookies`), so it throws a ReferenceError | any request config sent through `api`; `api` (line 12) is not exported, and no request in `api.service.js` is sent through `api`, so its interceptor never runs and the error is latent | read the token cookie and attach it when truthy | high (not executed) | ApiService.InterceptAsWritten | ApiService.Intercept |
