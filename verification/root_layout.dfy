/** The root layout: who counts as signed in, the route guard that runs whenever
    the auth flags or the route change, and the deep-link listener it installs. */
module RootLayout {
  import opened Gateway
  import opened Navigation
  import UrlQuery
  import AuthStore

  /** `!!session?.user`. */
  function IsAuthenticated(session: Option<Session>): (r: bool)
    ensures r <==> session.Some? && session.value.user.Some?
  {
    match session
    case None => false
    case Some(sess) => sess.user.Some?
  }

  /** `segments[0] === group`; an empty route has no first segment. */
  predicate InGroup(segments: seq<string>, group: string) {
    |segments| > 0 && segments[0] == group
  }

  datatype Decision = Stay | Replace(target: Route)

  /** `useProtectedRoute`: the redirect, if any, for the current flags and route. */
  function Guard(isLoading: bool, isAuthenticated: bool, isAdmin: bool, segments: seq<string>): (d: Decision)
    ensures isLoading ==> d == Stay
    ensures !isLoading && !isAuthenticated ==>
              (d == Stay <==> InGroup(segments, "(auth)")) && (d != Stay ==> d == Replace(Login))
    ensures !isLoading && isAuthenticated && InGroup(segments, "(auth)") ==>
              d == Replace(if isAdmin then AdminHome else AppHome)
    ensures !isLoading && isAuthenticated && InGroup(segments, "(admin)") ==>
              (d == Stay <==> isAdmin) && (d != Stay ==> d == Replace(AppHome))
    ensures !isLoading && isAuthenticated && InGroup(segments, "(app)") ==>
              (d == Stay <==> !(isAdmin && |segments| == 1)) && (d != Stay ==> d == Replace(AdminHome))
    ensures (isAuthenticated && !InGroup(segments, "(auth)") && !InGroup(segments, "(admin)")
             && !InGroup(segments, "(app)")) ==> d == Stay
  {
    if isLoading then Stay
    else
      var inAuthGroup := InGroup(segments, "(auth)");
      var inAdminGroup := InGroup(segments, "(admin)");
      var inAppGroup := InGroup(segments, "(app)");
      if !isAuthenticated then
        if !inAuthGroup then Replace(Login) else Stay
      else if inAuthGroup then
        Replace(if isAdmin then AdminHome else AppHome)
      else if inAdminGroup && !isAdmin then
        Replace(AppHome)
      else if inAppGroup && isAdmin && |segments| == 1 then
        Replace(AdminHome)
      else
        Stay
  }

  /** No redirect loop: once the router shows the target of a redirect, the guard,
      run again with the same flags, leaves it there. */
  lemma {:induction false} GuardSettles(isLoading: bool, isAuthenticated: bool, isAdmin: bool, segments: seq<string>)
    ensures Guard(isLoading, isAuthenticated, isAdmin, segments).Replace? ==>
              Guard(isLoading, isAuthenticated, isAdmin, Segments(Guard(isLoading, isAuthenticated, isAdmin, segments).target)) == Stay
  {
    var d := Guard(isLoading, isAuthenticated, isAdmin, segments);
    if d.Replace? {
      var next := Segments(d.target);
      assert next[0] == "(auth)" || next[0] == "(app)" || next[0] == "(admin)";
      assert d.target == Login ==> InGroup(next, "(auth)");
      assert d.target == AppHome ==> InGroup(next, "(app)") && !isAdmin;
      assert d.target == AdminHome ==> InGroup(next, "(admin)") && isAdmin;
    }
  }

  /** The guard with the exemption the recovery flow needs: a signed-in user on
      the password form is left there, since that form works only with the
      session the recovery link just created. Every other case is decided as
      `Guard` decides it. */
  function RecoveryGuard(isLoading: bool, isAuthenticated: bool, isAdmin: bool, segments: seq<string>): (d: Decision)
    ensures isAuthenticated && segments == Segments(ResetPassword) ==> d == Stay
    ensures !isAuthenticated && segments == Segments(ResetPassword) ==> d == Stay
    ensures segments != Segments(ResetPassword) ==> d == Guard(isLoading, isAuthenticated, isAdmin, segments)
  {
    if !isLoading && isAuthenticated && segments == Segments(ResetPassword) then Stay
    else Guard(isLoading, isAuthenticated, isAdmin, segments)
  }

  /** The corrected guard has no redirect loop either. */
  lemma RecoveryGuardSettles(isLoading: bool, isAuthenticated: bool, isAdmin: bool, segments: seq<string>)
    ensures RecoveryGuard(isLoading, isAuthenticated, isAdmin, segments).Replace? ==>
              RecoveryGuard(isLoading, isAuthenticated, isAdmin,
                            Segments(RecoveryGuard(isLoading, isAuthenticated, isAdmin, segments).target)) == Stay
  {
    var d := RecoveryGuard(isLoading, isAuthenticated, isAdmin, segments);
    if d.Replace? {
      GuardSettles(isLoading, isAuthenticated, isAdmin, segments);
      assert Segments(d.target) != Segments(ResetPassword) by {
        assert d.target != ResetPassword;
      }
    }
  }

  /** With the corrected guard, a recovery link that signed the user in stays on
      the password form, while the other auth pages still send a signed-in user home. */
  lemma RecoveryLandingStays(isAdmin: bool)
    ensures RecoveryGuard(false, true, isAdmin, Segments(Landing(Some("recovery")))) == Stay
    ensures RecoveryGuard(false, true, isAdmin, Segments(Login)) == Replace(if isAdmin then AdminHome else AppHome)
  {
    assert Segments(Login) != Segments(ResetPassword) by {
      assert Segments(Login)[1] != Segments(ResetPassword)[1];
    }
  }

  /** The guard on the store's flags, in its corrected form. */
  function GuardStore(st: AuthStore.AuthState, segments: seq<string>): Decision {
    RecoveryGuard(st.isLoading, IsAuthenticated(st.session), st.isAdmin, segments)
  }

  /** After a successful sign-out the guard sends every screen outside the auth
      group to the login page. */
  lemma SignedOutIsSentToLogin(st: AuthStore.AuthState, segments: seq<string>)
    requires !st.isLoading
    requires !InGroup(segments, "(auth)")
    ensures GuardStore(AuthStore.After(st, AuthStore.SignOut(st, None).states), segments) == Replace(Login)
  {
  }

  /** After the administrator signs in from the login page with a session that has
      a user, the guard sends them to the admin dashboard. */
  lemma AdminSignInLandsOnDashboard(st: AuthStore.AuthState, admin: AuthStore.Credentials, session: Session)
    requires session.user.Some?
    ensures var run := AuthStore.SignIn(st, admin.email, admin.password, admin, Ok(Some(session)));
            GuardStore(AuthStore.After(st, run.states), Segments(Login)) == Replace(AdminHome)
  {
  }

  /** As written, a recovery link that signed the user in lands on the password
      form inside the auth group, and the guard, seeing an authenticated user
      there, replaces it with the home screen: the form cannot be reached. */
  lemma RecoveryLandingIsRedirected(isAdmin: bool)
    ensures Guard(false, true, isAdmin, Segments(Landing(Some("recovery")))) ==
              Replace(if isAdmin then AdminHome else AppHome)
  {
  }

  /** The listener's handler for an incoming URL: `event` is the result of
      `new URL(...)` and `reply` that of the session exchange, consulted only if
      the exchange is made. Tokens are read from the query string only. */
  function LayoutDeepLink(event: Outcome<UrlQuery.Url>, reply: Outcome<Option<Session>>): (effects: seq<Effect>)
    ensures event.Err? ==> effects == []
    ensures Navigations(effects) <= 1
    ensures event.Ok? ==>
              var link := UrlQuery.ReadLink(UrlQuery.Parse(event.value.query));
              && (|effects| > 0 <==> Truthy(link.accessToken) && Truthy(link.refreshToken))
              && (|effects| > 0 ==> effects[0] == RequestSession(link.accessToken.value, link.refreshToken.value))
              && (Navigations(effects) == 1 <==> |effects| > 0 && reply.Ok? && reply.value.Some?)
              && (Navigations(effects) == 1 ==>
                    effects == [effects[0], StoreSession(reply.value), Navigate(Landing(link.linkType))])
              && (|effects| > 0 && !(reply.Ok? && reply.value.Some?) ==>
                    effects == [RequestSession(link.accessToken.value, link.refreshToken.value)])
  {
    match event
    case Err(_) => []
    case Ok(url) => LinkEffects(UrlQuery.ReadLink(UrlQuery.Parse(url.query)), reply)
  }

  function LinkEffects(link: UrlQuery.LinkParams, reply: Outcome<Option<Session>>): (effects: seq<Effect>)
    ensures Navigations(effects) <= 1
    ensures |effects| > 0 <==> Truthy(link.accessToken) && Truthy(link.refreshToken)
    ensures |effects| > 0 ==> effects[0] == RequestSession(link.accessToken.value, link.refreshToken.value)
    ensures Navigations(effects) == 1 <==> |effects| > 0 && reply.Ok? && reply.value.Some?
    ensures Navigations(effects) == 1 ==>
              effects == [effects[0], StoreSession(reply.value), Navigate(Landing(link.linkType))]
    ensures |effects| > 0 && !(reply.Ok? && reply.value.Some?) ==>
              effects == [RequestSession(link.accessToken.value, link.refreshToken.value)]
  {
    if Truthy(link.accessToken) && Truthy(link.refreshToken) then
      var request := RequestSession(link.accessToken.value, link.refreshToken.value);
      if reply.Ok? && reply.value.Some? then
        var effects := [request, StoreSession(reply.value), Navigate(Landing(link.linkType))];
        assert Navigations(effects) == 1 by {
          var last := [Navigate(Landing(link.linkType))];
          assert last[1..] == [];
          assert Navigations(last) == 1;
          assert effects[1..] == [StoreSession(reply.value)] + last;
          assert ([StoreSession(reply.value)] + last)[1..] == last;
          assert Navigations(effects[1..]) == 1;
        }
        effects
      else
        assert Navigations([request]) == 0 by { assert [request][1..] == []; }
        [request]
    else []
  }
}
