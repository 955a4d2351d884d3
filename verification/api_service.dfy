/**
 * The HTTP access layer: the endpoint table, the URLs built from it, and the
 * request interceptor of the shared client, which attaches a bearer token
 * to every outgoing request when one is available.
 */
module ApiService {
  import opened Wrappers

  const BaseUrl: string := "http://localhost:1221"

  /** The object `path()` returns. */
  datatype Paths = Paths(signUp: string, login: string, users: string)

  function EndpointPaths(): (p: Paths)
    ensures ApiPrefix <= p.signUp && ApiPrefix <= p.login && ApiPrefix <= p.users
  {
    Paths("/api/v1/signup", "/api/v1/login", "/api/v1/users")
  }

  const ApiPrefix: string := "/api/v1/"

  /** The three endpoints are pairwise distinct. */
  lemma PathsDistinct()
    ensures var p := EndpointPaths();
            p.signUp != p.login && p.login != p.users && p.signUp != p.users
  {
  }

  /** `baseUrl + path`. */
  function Url(path: string): (u: string)
    ensures BaseUrl <= u && u[|BaseUrl|..] == path
  {
    BaseUrl + path
  }

  /** The path part of a URL built on `BaseUrl`; `None` for any other URL. */
  function PathOf(url: string): (r: Option<string>)
    ensures r.Some? ==> Url(r.value) == url
  {
    if BaseUrl <= url then Some(url[|BaseUrl|..]) else None
  }

  /** A URL built on `BaseUrl` gives back exactly the path it was built from. */
  lemma UrlRoundTrip(path: string)
    ensures PathOf(Url(path)) == Some(path)
  {
  }

  function LoginUrl(): string
  {
    Url(EndpointPaths().login)
  }

  function SignUpUrl(): string
  {
    Url(EndpointPaths().signUp)
  }

  /** The login and signup requests go to `baseUrl` followed by their own, different paths. */
  lemma AuthUrls()
    ensures LoginUrl() == "http://localhost:1221/api/v1/login"
    ensures SignUpUrl() == "http://localhost:1221/api/v1/signup"
    ensures PathOf(LoginUrl()) == Some("/api/v1/login")
    ensures PathOf(SignUpUrl()) == Some("/api/v1/signup")
    ensures LoginUrl() != SignUpUrl()
  {
  }

  // ---------------------------------------------------------------------
  // The request interceptor.
  // ---------------------------------------------------------------------

  type Headers = map<string, string>

  /** An outgoing request's configuration: its URL, its headers, and every other option. */
  datatype RequestConfig = RequestConfig(url: string, headers: Headers, other: map<string, string>)

  const ContentTypeHeader: string := "Content-Type"
  const JsonContentType: string := "application/json"

  /** The headers the shared client gives every request. */
  const DefaultHeaders: Headers := map[ContentTypeHeader := JsonContentType]

  const AuthorizationHeader: string := "Authorization"
  const BearerPrefix: string := "Bearer "

  /** JavaScript truthiness of the token read from the cookie (`None` is `undefined`, a missing cookie): present and non-empty. */
  predicate Truthy(token: Option<string>)
  {
    token.Some? && token.value != ""
  }

  function BearerValue(token: string): string
  {
    BearerPrefix + token
  }

  /** The token carried by an `Authorization` value, if it uses the bearer scheme. */
  function StripBearer(v: string): Option<string>
  {
    if BearerPrefix <= v then Some(v[|BearerPrefix|..]) else None
  }

  /** A header value carries `token` exactly when it is the bearer value built from it. */
  lemma StripBearerInverse(token: string, v: string)
    ensures StripBearer(v) == Some(token) <==> v == BearerValue(token)
  {
  }

  /** The interceptor's fulfilment callback, given the cookie's token. */
  function AttachToken(config: RequestConfig, token: Option<string>): (r: RequestConfig)
    ensures r.url == config.url && r.other == config.other
    ensures !Truthy(token) ==> r == config
    ensures Truthy(token) ==>
              AuthorizationHeader in r.headers && r.headers[AuthorizationHeader] == BearerValue(token.value)
    ensures r.headers.Keys == config.headers.Keys + (if Truthy(token) then {AuthorizationHeader} else {})
    ensures forall k :: k in config.headers && k != AuthorizationHeader ==> r.headers[k] == config.headers[k]
    ensures Truthy(token) ==> StripBearer(r.headers[AuthorizationHeader]) == Some(token.value)
  {
    if Truthy(token) then
      config.(headers := config.headers[AuthorizationHeader := BearerValue(token.value)])
    else
      config
  }

  /** The interceptor's rejection callback: `Promise.reject(error)`. */
  function OnRejected<E>(error: E): (r: Result<RequestConfig, E>)
    ensures r.Failure? && r.error == error
  {
    Failure(error)
  }

  /** The interceptor as a stage: a request being built passes through one of the two callbacks. */
  function Intercept<E>(pending: Result<RequestConfig, E>, token: Option<string>): (r: Result<RequestConfig, E>)
    ensures pending.Failure? ==> r.Failure? && r.error == pending.error
    ensures pending.Success? ==> r.Success? && r.value.url == pending.value.url
    ensures pending.Success? ==> r.value.other == pending.value.other
    ensures pending.Success? ==>
              r.value.headers.Keys
                == pending.value.headers.Keys + (if Truthy(token) then {AuthorizationHeader} else {})
    ensures pending.Success? ==>
              forall k :: k in pending.value.headers && k != AuthorizationHeader ==>
                k in r.value.headers && r.value.headers[k] == pending.value.headers[k]
    ensures pending.Success? && !Truthy(token) ==> r == pending
    ensures pending.Success? && Truthy(token) ==>
              AuthorizationHeader in r.value.headers
              && StripBearer(r.value.headers[AuthorizationHeader]) == Some(token.value)
  {
    match pending
    case Failure(e) => OnRejected(e)
    case Success(config) =>
      Success(AttachToken(config, token))
  }

  /** Running the interceptor again with the same token changes nothing further. */
  lemma AttachTokenIdempotent(config: RequestConfig, token: Option<string>)
    ensures AttachToken(AttachToken(config, token), token) == AttachToken(config, token)
  {
  }

  /** Any earlier `Authorization` value is replaced, not kept or appended to. */
  lemma AttachTokenOverwrites(config: RequestConfig, token: string, earlier: string)
    requires token != ""
    ensures var c := config.(headers := config.headers[AuthorizationHeader := earlier]);
            AttachToken(c, Some(token)) == AttachToken(config, Some(token))
  {
  }

  /** After the interceptor the request carries `Authorization` iff the token was truthy or it already did. */
  lemma AuthorizationPresence(config: RequestConfig, token: Option<string>)
    ensures AuthorizationHeader in AttachToken(config, token).headers
            <==> Truthy(token) || AuthorizationHeader in config.headers
  {
  }

  /** A request built with the client's default headers keeps `Content-Type: application/json`. */
  lemma DefaultContentTypeKept(url: string, other: map<string, string>, token: Option<string>)
    ensures var r := AttachToken(RequestConfig(url, DefaultHeaders, other), token);
            ContentTypeHeader in r.headers && r.headers[ContentTypeHeader] == JsonContentType
  {
  }

  // ---------------------------------------------------------------------
  // The interceptor as written calls `getTokenFromCookie`, which the module
  // neither defines nor imports.
  // ---------------------------------------------------------------------

  /** The errors the interceptor can reject a request with. */
  datatype InterceptError<E> = Upstream(cause: E) | ReferenceError(name: string)

  const TokenReaderName: string := "getTokenFromCookie"

  /**
   * The interceptor as written: evaluating the unbound identifier throws a
   * ReferenceError inside the fulfilment callback, which rejects the request.
   */
  function InterceptAsWritten<E>(pending: Result<RequestConfig, E>): (r: Result<RequestConfig, InterceptError<E>>)
    ensures pending.Failure? ==> r == Failure(Upstream(pending.error))
    ensures pending.Success? ==> r == Failure(ReferenceError(TokenReaderName))
  {
    match pending
    case Failure(e) => Failure(Upstream(e))
    case Success(_) => Failure(ReferenceError(TokenReaderName))
  }

  /** No request built through the shared client can be sent by the interceptor as written. */
  lemma AsWrittenRejectsEveryRequest<E>(config: RequestConfig, token: Option<string>)
    ensures InterceptAsWritten<E>(Success(config)) == Failure(ReferenceError(TokenReaderName))
    ensures Intercept<E>(Success(config), token).Success?
  {
  }
}
