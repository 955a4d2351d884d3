/**
 * The Redux auth reducer: a two-state (anonymous / authenticated) machine
 * driven by tagged actions. The state is a record of the three auth fields
 * plus every other field the state object happens to carry, which the
 * object spread in the reducer passes through untouched.
 */
module AuthReducer {
  import opened Wrappers

  /**
   * A JSON-like JavaScript value held in a state object; numbers are integers,
   * and `undefined` and functions are not represented.
   */
  datatype Value =
    | Null
    | Bool(b: bool)
    | Num(n: int)
    | Str(s: string)
    | Arr(items: seq<Value>)
    | Obj(fields: map<string, Value>)

  /** A value that is neither `null` nor `undefined`. */
  type Present = v: Value | !v.Null? witness Bool(false)

  type Token = string

  /** The reducer's slice of the store: the three auth fields and all other fields. */
  datatype AuthState = AuthState(
    isAuthenticated: bool,
    user: Option<Present>,
    token: Option<Token>,
    rest: map<string, Value>)

  const IsAuthenticatedKey: string := "isAuthenticated"
  const UserKey: string := "user"
  const TokenKey: string := "token"
  const AuthKeys: set<string> := {IsAuthenticatedKey, UserKey, TokenKey}

  /** The other fields never reuse one of the three auth property names. */
  predicate WellFormed(s: AuthState)
  {
    s.rest.Keys !! AuthKeys
  }

  /** `initialAuthState`: anonymous, no user, no token, nothing else. */
  const InitialAuthState: AuthState := AuthState(false, None, None, map[])

  /** The reducer's action vocabulary; `Other` is any tag the switch does not name. */
  datatype Action =
    | LoginSuccess(user: Option<Present>, token: Option<Token>)
    | Logout
    | Other(tag: string)

  const LoginSuccessTag: string := "LOGIN_SUCCESS"
  const LogoutTag: string := "LOGOUT"

  /** An action as dispatched: a `type` string and an optional `payload` object. */
  datatype Payload = Payload(user: Option<Present>, token: Option<Token>)
  datatype WireAction = WireAction(tag: string, payload: Option<Payload>)

  /** Reading `action.payload.user` when there is no payload throws a TypeError. */
  datatype ReduceError = MissingPayload

  predicate IsAuthAction(a: Action)
  {
    a.LoginSuccess? || a.Logout?
  }

  /** An `Other` tag is canonical when it is not one of the two tags the switch names. */
  predicate Canonical(a: Action)
  {
    a.Other? ==> a.tag != LoginSuccessTag && a.tag != LogoutTag
  }

  /** The `switch (action.type)` dispatch, with the payload read of the login arm. */
  function Decode(w: WireAction): (r: Result<Action, ReduceError>)
    ensures r.Failure? <==> w.tag == LoginSuccessTag && w.payload.None?
    ensures r.Success? ==> Canonical(r.value) && TagOf(r.value) == w.tag
    ensures r.Success? && r.value.LoginSuccess? ==>
              r.value.user == w.payload.value.user && r.value.token == w.payload.value.token
  {
    if w.tag == LoginSuccessTag then
      match w.payload
      case None => Failure(MissingPayload)
      case Some(p) => Success(LoginSuccess(p.user, p.token))
    else if w.tag == LogoutTag then
      Success(Logout)
    else
      Success(Other(w.tag))
  }

  function TagOf(a: Action): string
  {
    match a
    case LoginSuccess(_, _) => LoginSuccessTag
    case Logout => LogoutTag
    case Other(t) => t
  }

  /** The action object a caller dispatches for `a`. */
  function Encode(a: Action): WireAction
  {
    match a
    case LoginSuccess(u, t) => WireAction(LoginSuccessTag, Some(Payload(u, t)))
    case Logout => WireAction(LogoutTag, None)
    case Other(t) => WireAction(t, None)
  }

  /** Every canonical action survives dispatch: decoding its wire form gives it back. */
  lemma DecodeEncode(a: Action)
    requires Canonical(a)
    ensures Decode(Encode(a)) == Success(a)
  {
  }

  /** One transition of the reducer on a decoded action. */
  function Step(s: AuthState, a: Action): (r: AuthState)
    ensures r.rest == s.rest
    ensures a.LoginSuccess? ==> r.isAuthenticated && r.user == a.user && r.token == a.token
    ensures a.Logout? ==> !r.isAuthenticated && r.user.None? && r.token.None?
    ensures a.Other? ==> r == s
  {
    match a
    case LoginSuccess(u, t) => s.(isAuthenticated := true, user := u, token := t)
    case Logout => s.(isAuthenticated := false, user := None, token := None)
    case Other(_) => s
  }

  /**
   * `authReducer(state = initialAuthState, action)`: `None` for `state` is
   * `undefined`, which selects the initial state.
   */
  function Reduce(state: Option<AuthState>, w: WireAction): (r: Result<AuthState, ReduceError>)
    ensures r.Failure? <==> w.tag == LoginSuccessTag && w.payload.None?
    ensures r.Success? ==> r.value.rest == state.GetOr(InitialAuthState).rest
    ensures w.tag == LoginSuccessTag && w.payload.Some? ==>
              r == Success(AuthState(true, w.payload.value.user, w.payload.value.token,
                                     state.GetOr(InitialAuthState).rest))
    ensures w.tag == LogoutTag ==>
              r == Success(AuthState(false, None, None, state.GetOr(InitialAuthState).rest))
    ensures w.tag != LoginSuccessTag && w.tag != LogoutTag ==>
              r == Success(state.GetOr(InitialAuthState))
  {
    var s := state.GetOr(InitialAuthState);
    match Decode(w)
    case Failure(e) => Failure(e)
    case Success(a) => Success(Step(s, a))
  }

  // ---------------------------------------------------------------------
  // The state as a JavaScript object, and the reducer written with the
  // object spread, as an independent reference for Step.
  // ---------------------------------------------------------------------

  function NullableUser(u: Option<Present>): Value
  {
    match u
    case None => Null
    case Some(v) => v
  }

  function NullableToken(t: Option<Token>): Value
  {
    match t
    case None => Null
    case Some(v) => Str(v)
  }

  /** The plain object the store holds for `s`. */
  function ToObject(s: AuthState): map<string, Value>
  {
    s.rest[IsAuthenticatedKey := Bool(s.isAuthenticated)]
          [UserKey := NullableUser(s.user)]
          [TokenKey := NullableToken(s.token)]
  }

  /** Reads a state object back into the record; `None` if an auth field is missing or ill-typed. */
  function FromObject(obj: map<string, Value>): (r: Option<AuthState>)
    ensures r.Some? ==> WellFormed(r.value)
  {
    if IsAuthenticatedKey in obj && UserKey in obj && TokenKey in obj
       && obj[IsAuthenticatedKey].Bool? && (obj[TokenKey].Null? || obj[TokenKey].Str?)
    then
      var user: Option<Present> := if obj[UserKey].Null? then None else Some(obj[UserKey]);
      var token: Option<Token> := if obj[TokenKey].Null? then None else Some(obj[TokenKey].s);
      Some(AuthState(obj[IsAuthenticatedKey].b, user, token, obj - AuthKeys))
    else
      None
  }

  /** The record is a faithful view of the object: nothing is lost converting a well-formed state. */
  lemma ObjectRoundTrip(s: AuthState)
    requires WellFormed(s)
    ensures FromObject(ToObject(s)) == Some(s)
  {
    var obj := ToObject(s);
    assert obj - AuthKeys == s.rest;
  }

  /** Conversely, every object that reads as a state is exactly that state's object. */
  lemma FromObjectRoundTrip(obj: map<string, Value>)
    requires FromObject(obj).Some?
    ensures ToObject(FromObject(obj).value) == obj
  {
    var r := ToObject(FromObject(obj).value);
    assert r.Keys == obj.Keys;
  }

  /** `{ ...obj, isAuthenticated: a, user: u, token: t }` */
  function Spread(obj: map<string, Value>, a: Value, u: Value, t: Value): (r: map<string, Value>)
    ensures r.Keys == obj.Keys + AuthKeys
    ensures r[IsAuthenticatedKey] == a && r[UserKey] == u && r[TokenKey] == t
    ensures forall k :: k in obj && k !in AuthKeys ==> r[k] == obj[k]
  {
    obj[IsAuthenticatedKey := a][UserKey := u][TokenKey := t]
  }

  /** The reducer's switch as written, on plain objects. */
  function ReduceObject(obj: map<string, Value>, a: Action): (r: map<string, Value>)
    ensures forall k :: k !in AuthKeys ==> (k in r <==> k in obj)
    ensures forall k :: k in obj && k !in AuthKeys ==> r[k] == obj[k]
  {
    match a
    case LoginSuccess(u, t) => Spread(obj, Bool(true), NullableUser(u), NullableToken(t))
    case Logout => Spread(obj, Bool(false), Null, Null)
    case Other(_) => obj
  }

  /** The record-level Step computes exactly what the spread-based reducer computes. */
  lemma StepMatchesObjectSpread(s: AuthState, a: Action)
    ensures ToObject(Step(s, a)) == ReduceObject(ToObject(s), a)
  {
  }

  /**
   * On any object that reads as a state, the spread-based reducer yields an
   * object that reads as the record transition's result.
   */
  lemma ReduceObjectMatchesStep(obj: map<string, Value>, a: Action)
    requires FromObject(obj).Some?
    ensures FromObject(ReduceObject(obj, a)) == Some(Step(FromObject(obj).value, a))
  {
    var s := FromObject(obj).value;
    FromObjectRoundTrip(obj);
    StepMatchesObjectSpread(s, a);
    ObjectRoundTrip(Step(s, a));
  }

  // ---------------------------------------------------------------------
  // Transition properties.
  // ---------------------------------------------------------------------

  /** A later LOGIN_SUCCESS or LOGOUT discards whatever the earlier action set. */
  lemma AuthActionOverrides(s: AuthState, a: Action, b: Action)
    requires IsAuthAction(b)
    ensures Step(Step(s, a), b) == Step(s, b)
  {
  }

  /** LOGOUT twice is LOGOUT once; the same LOGIN_SUCCESS twice is that LOGIN_SUCCESS once. */
  lemma Idempotent(s: AuthState, a: Action)
    requires IsAuthAction(a)
    ensures Step(Step(s, a), a) == Step(s, a)
  {
  }

  /** The anonymous/authenticated invariant: the flag, the user and the token agree. */
  predicate Consistent(s: AuthState)
  {
    (s.isAuthenticated <==> s.user.Some?) && (s.isAuthenticated <==> s.token.Some?)
  }

  /** A LOGIN_SUCCESS payload carries both a user and a token. */
  predicate CompletePayload(a: Action)
  {
    a.LoginSuccess? ==> a.user.Some? && a.token.Some?
  }

  lemma StepPreservesConsistent(s: AuthState, a: Action)
    requires Consistent(s) && CompletePayload(a)
    ensures Consistent(Step(s, a))
  {
  }

  /** The reducer does not validate payloads: a LOGIN_SUCCESS without a user yields a tokened, userless session. */
  lemma IncompletePayloadBreaksInvariant(t: Token)
    ensures !Consistent(Step(InitialAuthState, LoginSuccess(None, Some(t))))
  {
  }

  // ---------------------------------------------------------------------
  // Action sequences.
  // ---------------------------------------------------------------------

  /** The state after dispatching `actions` in order, starting from `s`. */
  function Run(s: AuthState, actions: seq<Action>): AuthState
    decreases |actions|
  {
    if |actions| == 0 then s
    else Step(Run(s, actions[..|actions| - 1]), actions[|actions| - 1])
  }

  /** Dispatching `xs` and then `ys` is dispatching `xs + ys`. */
  lemma {:induction false} RunAppend(s: AuthState, xs: seq<Action>, ys: seq<Action>)
    ensures Run(s, xs + ys) == Run(Run(s, xs), ys)
    decreases |ys|
  {
    if |ys| == 0 {
      assert xs + ys == xs;
    } else {
      var ys' := ys[..|ys| - 1];
      assert (xs + ys)[..|xs + ys| - 1] == xs + ys';
      RunAppend(s, xs, ys');
    }
  }

  /** Starting consistent and fed only complete payloads, the reducer stays consistent. */
  lemma {:induction false} RunPreservesConsistent(s: AuthState, actions: seq<Action>)
    requires Consistent(s)
    requires forall i :: 0 <= i < |actions| ==> CompletePayload(actions[i])
    ensures Consistent(Run(s, actions))
    decreases |actions|
  {
    if |actions| > 0 {
      var prefix := actions[..|actions| - 1];
      RunPreservesConsistent(s, prefix);
      StepPreservesConsistent(Run(s, prefix), actions[|actions| - 1]);
    }
  }

  /** From the initial state, under complete payloads, isAuthenticated <==> user != null <==> token != null. */
  lemma InitialRunConsistent(actions: seq<Action>)
    requires forall i :: 0 <= i < |actions| ==> CompletePayload(actions[i])
    ensures var s := Run(InitialAuthState, actions);
            (s.isAuthenticated <==> s.user.Some?) && (s.user.Some? <==> s.token.Some?)
  {
    RunPreservesConsistent(InitialAuthState, actions);
  }

  /** The position of the last LOGIN_SUCCESS or LOGOUT in `actions`, if any. */
  function LastAuthIndex(actions: seq<Action>): (r: Option<nat>)
    ensures r.None? ==> forall i :: 0 <= i < |actions| ==> !IsAuthAction(actions[i])
    ensures r.Some? ==> r.value < |actions| && IsAuthAction(actions[r.value])
    ensures r.Some? ==> forall j :: r.value < j < |actions| ==> !IsAuthAction(actions[j])
    decreases |actions|
  {
    if |actions| == 0 then None
    else if IsAuthAction(actions[|actions| - 1]) then Some(|actions| - 1)
    else
      var prefix := actions[..|actions| - 1];
      var r := LastAuthIndex(prefix);
      assert forall i :: 0 <= i < |prefix| ==> prefix[i] == actions[i];
      r
  }

  /** The three auth fields of a state. */
  datatype Credentials = Credentials(isAuthenticated: bool, user: Option<Present>, token: Option<Token>)

  function CredentialsOf(s: AuthState): Credentials
  {
    Credentials(s.isAuthenticated, s.user, s.token)
  }

  /** What a LOGIN_SUCCESS or LOGOUT writes into the auth fields, whatever the state before. */
  function Effect(a: Action): Credentials
    requires IsAuthAction(a)
  {
    if a.LoginSuccess? then Credentials(true, a.user, a.token) else Credentials(false, None, None)
  }

  /**
   * Last writer wins: after any sequence the auth fields are those written by
   * its last LOGIN_SUCCESS/LOGOUT (or the starting ones if there is none), and
   * the other fields are the starting ones.
   */
  lemma {:induction false} LastWriterWins(s: AuthState, actions: seq<Action>)
    ensures Run(s, actions).rest == s.rest
    ensures LastAuthIndex(actions).None? ==> CredentialsOf(Run(s, actions)) == CredentialsOf(s)
    ensures LastAuthIndex(actions).Some? ==>
              CredentialsOf(Run(s, actions)) == Effect(actions[LastAuthIndex(actions).value])
    decreases |actions|
  {
    if |actions| > 0 {
      LastWriterWins(s, actions[..|actions| - 1]);
    }
  }
}
