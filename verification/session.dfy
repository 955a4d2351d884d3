/**
 * The reducer and the interceptor together, under the assumption that the
 * caller keeps the token cookie equal to the store's token (neither the
 * reducer nor the API service writes the cookie; its value is the
 * interceptor's input).
 */
module Session {
  import opened Wrappers
  import opened AuthReducer
  import opened ApiService

  /** The `Authorization` header a request gets when the cookie holds the state's token. */
  function SentAuthorization(s: AuthState, config: RequestConfig): Option<string>
  {
    var headers := AttachToken(config, s.token).headers;
    if AuthorizationHeader in headers then Some(headers[AuthorizationHeader]) else None
  }

  /**
   * Dispatching LOGIN_SUCCESS{user, token} from the undefined state, then
   * sending a request, then LOGOUT, then another request: the first request
   * carries `Bearer <token>`, the second carries no credential.
   */
  lemma LoginLogoutScenario(user: Present, token: Token, config: RequestConfig)
    requires token != ""
    requires AuthorizationHeader !in config.headers
    ensures var login := Reduce(None, WireAction(LoginSuccessTag, Some(Payload(Some(user), Some(token)))));
            && login == Success(AuthState(true, Some(user), Some(token), map[]))
            && SentAuthorization(login.value, config) == Some("Bearer " + token)
            && var logout := Reduce(Some(login.value), WireAction(LogoutTag, None));
               && logout == Success(InitialAuthState)
               && SentAuthorization(logout.value, config) == None
  {
  }

  /**
   * An authenticated, consistent state whose token is the empty string sends
   * requests without credentials: the reducer stores "" while the
   * interceptor treats it as falsy.
   */
  lemma EmptyTokenSendsNoCredential(s: AuthState, user: Present, config: RequestConfig)
    requires AuthorizationHeader !in config.headers
    ensures var s' := Step(s, LoginSuccess(Some(user), Some("")));
            Consistent(s') && s'.isAuthenticated && SentAuthorization(s', config) == None
  {
  }

  /**
   * Whenever the state is consistent and holds a non-empty token, a request
   * without its own `Authorization` header is sent with exactly that token,
   * and an anonymous state sends none.
   */
  lemma CredentialFollowsState(s: AuthState, config: RequestConfig)
    requires Consistent(s)
    requires AuthorizationHeader !in config.headers
    requires s.token != Some("")
    ensures s.isAuthenticated ==>
              SentAuthorization(s, config).Some?
              && StripBearer(SentAuthorization(s, config).value) == Some(s.token.value)
    ensures !s.isAuthenticated ==> SentAuthorization(s, config) == None
  {
  }
}
