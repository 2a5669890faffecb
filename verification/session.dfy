/**
  The session layer: which requests get the bearer token
  (src/services/api.ts), how the response interceptor installed by the auth
  provider reacts to a failed request, and the signed-in user
  (src/contexts/AuthContext.tsx). Secure storage is part of the state;
  whether a storage call fails and what the server answers are inputs.
 */
module Session {
  import opened Lists
  import opened Text

  // ---------------------------------------------------------------------
  // Request interceptor
  // ---------------------------------------------------------------------

  /** The routes that are called without a token. */
  const PublicRoutes: seq<string> := ["/auth/login", "/auth/register", "/campanhas/active/all", "/lojas/categorias"]

  /** `publicRoutes.some(route => config.url?.includes(route))`: a missing URL is not public. */
  predicate IsPublicRoute(url: Option<string>)
  {
    url.Some? && exists i :: 0 <= i < |PublicRoutes| && Contains(url.value, PublicRoutes[i])
  }

  /** An outgoing request: its URL and its Authorization header, if any. */
  datatype ApiRequest = ApiRequest(url: Option<string>, authorization: Option<string>)

  /** A stored token is used only when truthy (present and non-empty). */
  predicate HasToken(token: Option<string>)
  {
    token.Some? && token.value != ""
  }

  /**
    The request interceptor: a protected request gets "Bearer <token>"
    when a token is stored; a public request, or one made without a token,
    goes out as it is.
   */
  function AttachToken(req: ApiRequest, token: Option<string>): (r: ApiRequest)
    ensures r.url == req.url
    ensures IsPublicRoute(req.url) || !HasToken(token) ==> r == req
    ensures !IsPublicRoute(req.url) && HasToken(token) ==> r.authorization == Some("Bearer " + token.value)
  {
    if !IsPublicRoute(req.url) && HasToken(token) then req.(authorization := Some("Bearer " + token.value))
    else req
  }

  /** A public request never carries a token the interceptor added: whatever is stored, it leaves unchanged. */
  lemma PublicNeverAuthorized(req: ApiRequest, t1: Option<string>, t2: Option<string>)
    requires IsPublicRoute(req.url)
    ensures AttachToken(req, t1) == AttachToken(req, t2) == req
  {
  }

  /** Matching is by substring: a URL that extends a public one on either side is public too. */
  lemma PublicByExtension(url: string, pre: string, post: string)
    requires IsPublicRoute(Some(url))
    ensures IsPublicRoute(Some(pre + url + post))
  {
    var i :| 0 <= i < |PublicRoutes| && Contains(url, PublicRoutes[i]);
    var p := PublicRoutes[i];
    var k :| 0 <= k <= |url| - |p| && OccursAt(url, p, k);
    var big := pre + url + post;
    assert big[|pre| + k..|pre| + k + |p|] == url[k..k + |p|];
    assert OccursAt(big, p, |pre| + k);
  }

  /**
    The merchant login posts to "/auth/lojista", which no public route is
    part of: it is treated as protected and carries a token left in storage.
   */
  lemma LoginRouteIsProtected(url: string, t: string)
    requires url == "/auth/lojista" && t != ""
    ensures !IsPublicRoute(Some(url))
    ensures AttachToken(ApiRequest(Some(url), None), Some(t)).authorization == Some("Bearer " + t)
  {
    assert |url| == 13;
    forall i | 0 <= i < |PublicRoutes|
      ensures !Contains(url, PublicRoutes[i])
    {
      if i == 0 {
        forall k | 0 <= k <= |url| - 11
          ensures !OccursAt(url, PublicRoutes[0], k)
        {
          var p := PublicRoutes[0];
          if k == 0 {
            assert url[k..k + |p|][8] != p[8];
          } else {
            assert url[k..k + |p|][0] != p[0];
          }
        }
      }
    }
  }

  // ---------------------------------------------------------------------
  // Response interceptor
  // ---------------------------------------------------------------------

  /** What a failed request carries: `error.response?.data?.code` and `error.response?.status`. */
  datatype ApiError = ApiError(code: Option<string>, status: Option<int>)

  /** The interceptor's effects, in order. */
  datatype Effect = RevokedAlert | AuthAlert | SignOut | Reject(error: ApiError)

  const SessionRevoked: string := "SESSION_REVOKED"

  predicate Revoked(e: ApiError) { e.code == Some(SessionRevoked) }

  predicate AuthStatus(e: ApiError) { e.status == Some(401) || e.status == Some(403) }

  /**
    The auth provider's response interceptor. A revoked session is told
    so, signed out and the error re-rejected; otherwise a 401 or 403 gets
    its own alert, a sign-out and the re-rejection; any other error is only
    re-rejected. The revoked branch returns before the status is looked at.
   */
  function OnResponseError(e: ApiError): (r: seq<Effect>)
    ensures |r| > 0 && r[|r| - 1] == Reject(e)
    ensures forall i :: 0 <= i < |r| - 1 ==> !r[i].Reject?
    ensures SignOut in r <==> Revoked(e) || AuthStatus(e)
    ensures multiset(r)[SignOut] <= 1
    ensures RevokedAlert in r <==> Revoked(e)
    ensures AuthAlert in r <==> !Revoked(e) && AuthStatus(e)
  {
    if Revoked(e) then [RevokedAlert, SignOut, Reject(e)]
    else if AuthStatus(e) then [AuthAlert, SignOut, Reject(e)]
    else [Reject(e)]
  }

  /** A revoked session answered with 401 is signed out once, with the revocation alert only. */
  lemma RevokedBeatsStatus(e: ApiError)
    requires Revoked(e) && AuthStatus(e)
    ensures OnResponseError(e) == [RevokedAlert, SignOut, Reject(e)]
  {
  }

  // ---------------------------------------------------------------------
  // The signed-in user
  // ---------------------------------------------------------------------

  /** The user data the server returns at login. */
  datatype UserData = UserData(id: int, nome: string, email: string)

  /**
    What `getUserData` hands to the provider: `{ user }`, holding the
    parsed stored user, or `{}` when no user is stored. The wrapper itself
    is always truthy.
   */
  datatype SessionUser = SessionUser(data: Option<UserData>)

  /** The provider's user and what secure storage holds under "token" and "user". */
  datatype AuthState = AuthState(user: Option<SessionUser>, token: Option<string>, storedUser: Option<UserData>)

  /** `isAuthenticated = !!user`. */
  predicate IsAuthenticated(s: AuthState) { s.user.Some? }

  /** `signIn(email, telefone, senha)`: the arguments of the login call. */
  datatype SignInArgs = SignInArgs(email: string, telefone: string, senha: string)

  /** The login call's answer: the token and user data, or a failure. */
  datatype LoginAnswer = LoginOk(token: string, userData: UserData) | LoginFailed

  /**
    The outcome of two secure-storage calls made one after the other in one
    `try` block ("token" first, then "user"): both succeed, the first
    rejects (so the second is never made), or only the second rejects.
   */
  datatype StorageCalls = BothDone | FirstRejects | SecondRejects

  /**
    `checkAuthState`: `checkAuthenticated` is false when reading the token
    fails and `!!token` otherwise; when it is true the user becomes what
    `getUserData` returns, which is null when reading or parsing the stored
    user fails and the always-truthy `{ user }` otherwise. Every other path
    leaves no user.
   */
  function CheckAuthState(s: AuthState, tokenReadOk: bool, userReadOk: bool): (r: AuthState)
    ensures IsAuthenticated(r) <==> tokenReadOk && HasToken(s.token) && userReadOk
    ensures IsAuthenticated(r) ==> r.user.value.data == s.storedUser
    ensures r.token == s.token && r.storedUser == s.storedUser
  {
    if tokenReadOk && HasToken(s.token) && userReadOk then s.(user := Some(SessionUser(s.storedUser)))
    else s.(user := None)
  }

  /** The state after `signIn` and whether it threw to its caller. */
  datatype SignInOutcome = SignInOutcome(state: AuthState, threw: bool)

  /**
    `signIn`: `login` posts the credentials, then stores the token and then
    the user, throwing at the first failure; only when all of that succeeded
    does the provider set the user and re-run `checkAuthState`, whose own
    storage reads may fail.
   */
  function SignIn(s: AuthState, answer: LoginAnswer, writes: StorageCalls, tokenReadOk: bool, userReadOk: bool): (r: SignInOutcome)
    ensures r.threw <==> answer.LoginFailed? || !writes.BothDone?
    ensures r.threw ==> r.state.user == s.user && r.state.storedUser == s.storedUser
    ensures answer.LoginFailed? || writes.FirstRejects? ==> r.state == s
    ensures answer.LoginOk? && !writes.FirstRejects? ==> r.state.token == Some(answer.token)
    ensures !r.threw ==>
      && r.state.storedUser == Some(answer.userData)
      && (IsAuthenticated(r.state) <==> answer.token != "" && tokenReadOk && userReadOk)
      && (IsAuthenticated(r.state) ==> r.state.user.value.data == Some(answer.userData))
  {
    match answer
    case LoginFailed => SignInOutcome(s, true)
    case LoginOk(t, u) =>
      match writes
      case FirstRejects => SignInOutcome(s, true)
      case SecondRejects => SignInOutcome(s.(token := Some(t)), true)
      case BothDone => SignInOutcome(CheckAuthState(s.(token := Some(t), storedUser := Some(u)), tokenReadOk, userReadOk), false)
  }

  /**
    A login whose user write fails still leaves its token stored: the caller
    is told the sign-in failed, yet the next storage check signs the app in
    with whatever user storage held, `{}` when there was none.
   */
  lemma HalfStoredLoginSignsInLater(s: AuthState, t: string, u: UserData)
    requires t != "" && s.storedUser.None?
    ensures var o := SignIn(s, LoginOk(t, u), SecondRejects, true, true);
      && o.threw
      && var c := CheckAuthState(o.state, true, true);
      IsAuthenticated(c) && c.user.value.data.None?
  {
  }

  /**
    `signOut`: `logout` deletes the token and then the user, swallowing a
    rejection, so the user is always cleared; storage keeps what the failed
    deletion and everything after it would have removed.
   */
  function SignOutState(s: AuthState, deletes: StorageCalls): (r: AuthState)
    ensures !IsAuthenticated(r)
    ensures deletes.FirstRejects? ==> r.token == s.token
    ensures !deletes.FirstRejects? ==> r.token.None?
    ensures deletes.BothDone? ==> r.storedUser.None?
    ensures !deletes.BothDone? ==> r.storedUser == s.storedUser
  {
    match deletes
    case BothDone => AuthState(None, None, None)
    case FirstRejects => s.(user := None)
    case SecondRejects => s.(user := None, token := None)
  }

  /** Once the token deletion went through, a later storage check finds nobody signed in. */
  lemma SignedOutStaysOut(s: AuthState, deletes: StorageCalls, tokenReadOk: bool, userReadOk: bool)
    requires !deletes.FirstRejects?
    ensures !IsAuthenticated(CheckAuthState(SignOutState(s, deletes), tokenReadOk, userReadOk))
  {
  }

  /** A sign-out whose token deletion fails is undone by the next storage check that reads fine. */
  lemma FailedSignOutSignsBackIn(s: AuthState)
    requires HasToken(s.token)
    ensures var c := CheckAuthState(SignOutState(s, FirstRejects), true, true);
      IsAuthenticated(c) && c.user.value.data == s.storedUser
  {
  }

  /** Signing in and then out leaves the app signed out, whatever the login and storage did. */
  lemma SignInThenOut(s: AuthState, answer: LoginAnswer, writes: StorageCalls, tokenReadOk: bool, userReadOk: bool, deletes: StorageCalls)
    ensures !IsAuthenticated(SignOutState(SignIn(s, answer, writes, tokenReadOk, userReadOk).state, deletes))
  {
  }
}
