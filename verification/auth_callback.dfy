/** The `/auth/callback` screen, which finishes an email sign-in or password
    recovery: it reads the tokens from the page URL (from the fragment when there
    is one), exchanges them for a session and navigates exactly once. */
module AuthCallback {
  import opened Gateway
  import opened Navigation
  import opened UrlQuery
  import AuthStore
  import RootLayout

  /** The parameters `url.searchParams` yields once a non-empty fragment has been
      serialized into the query string (`url.search = hashParams.toString()`). */
  function CallbackParams(url: Url): seq<Param> {
    if url.fragment != "" then Parse(Serialize(ParseInit(url.fragment))) else Parse(url.query)
  }

  /** The rewrite loses nothing: with a fragment the tokens are exactly the
      fragment's parameters (after the one `?` the constructor drops), and
      without one they are the query's. */
  lemma FragmentReplacesQuery(url: Url)
    ensures url.fragment != "" && url.fragment[0] != '?' ==> CallbackParams(url) == Parse(url.fragment)
    ensures url.fragment != "" && url.fragment[0] == '?' ==> CallbackParams(url) == Parse(url.fragment[1..])
    ensures url.fragment == "" ==> CallbackParams(url) == Parse(url.query)
  {
    if url.fragment != "" {
      if url.fragment[0] == '?' {
        ReparseIsIdentity(url.fragment[1..]);
      } else {
        ReparseIsIdentity(url.fragment);
      }
    }
  }

  /** A fragment written like a query string, `#?` followed by serialized
      parameters, yields those parameters: the constructor drops the `?`. */
  lemma QueryMarkedFragmentIsRead(url: Url, ps: seq<Param>)
    requires WellFormed(ps)
    requires url.fragment == "?" + Serialize(ps)
    ensures CallbackParams(url) == ps
  {
    FragmentReplacesQuery(url);
    assert url.fragment[1..] == Serialize(ps);
    SerializeRoundTrip(ps);
  }

  /** The serialization of the example link's parameters. */
  lemma TokenPairSerializes()
    ensures Serialize([Param("access_token", "a"), Param("refresh_token", "b")]) == "access_token=a&refresh_token=b"
  {
    var ps := [Param("access_token", "a"), Param("refresh_token", "b")];
    var pieces := seq(|ps|, i requires 0 <= i < |ps| => Piece(ps[i]));
    assert pieces[0] == "access_token=a" && pieces[1] == "refresh_token=b";
    assert pieces[1..] == ["refresh_token=b"];
    assert Text.Join(pieces, '&') == "access_token=a" + "&" + "refresh_token=b";
  }

  /** The example link's parameters are well formed and carry both tokens. */
  lemma TokenPairReads()
    ensures WellFormed([Param("access_token", "a"), Param("refresh_token", "b")])
    ensures ReadLink([Param("access_token", "a"), Param("refresh_token", "b")]) == LinkParams(Some("a"), Some("b"), None)
  {
    var ps := [Param("access_token", "a"), Param("refresh_token", "b")];
    assert '&' !in ps[0].name && '=' !in ps[0].name && '&' !in ps[0].value;
    assert '&' !in ps[1].name && '=' !in ps[1].name && '&' !in ps[1].value;
    assert ps[0].name == "access_token" && ps[1].name != "access_token";
    assert ps[1].name == "refresh_token" && ps[0].name != "refresh_token";
    assert ps[0].name != "type" && ps[1].name != "type";
  }

  /** So a fragment written that way makes the callback ask for the session. */
  lemma QueryMarkedFragmentIsExchanged(url: Url, reply: Outcome<Option<Session>>)
    requires url.fragment == "?access_token=a&refresh_token=b"
    ensures HandleCallback(Ok(url), reply)[0] == RequestSession("a", "b")
  {
    var ps := [Param("access_token", "a"), Param("refresh_token", "b")];
    TokenPairSerializes();
    TokenPairReads();
    assert url.fragment == "?" + Serialize(ps);
    QueryMarkedFragmentIsRead(url, ps);
    var link := ReadLink(CallbackParams(url));
    assert link == LinkParams(Some("a"), Some("b"), None);
    assert Truthy(link.accessToken) && Truthy(link.refreshToken);
  }

  /** `handleDeepLink`: `href` is the result of `new URL(location.href)` and
      `reply` that of the session exchange, consulted only if it is made. */
  function HandleCallback(href: Outcome<Url>, reply: Outcome<Option<Session>>): (effects: seq<Effect>)
    ensures Navigations(effects) == 1 && |effects| > 0 && effects[|effects| - 1].Navigate?
    ensures href.Err? ==> effects == [Navigate(Login)]
    ensures href.Ok? ==>
              var link := ReadLink(CallbackParams(href.value));
              && (!(Truthy(link.accessToken) && Truthy(link.refreshToken)) ==> effects == [Navigate(Login)])
              && (Truthy(link.accessToken) && Truthy(link.refreshToken) ==>
                    var request := RequestSession(link.accessToken.value, link.refreshToken.value);
                    && (reply.Err? ==> effects == [request, Navigate(Login)])
                    && (reply.Ok? ==>
                          effects == [request, StoreSession(reply.value), Navigate(Landing(link.linkType))]))
  {
    match href
    case Err(_) =>
      assert [Navigate(Login)][1..] == [];
      [Navigate(Login)]
    case Ok(url) => Exchange(ReadLink(CallbackParams(url)), reply)
  }

  function Exchange(link: LinkParams, reply: Outcome<Option<Session>>): (effects: seq<Effect>)
    ensures Navigations(effects) == 1 && |effects| > 0 && effects[|effects| - 1].Navigate?
    ensures !(Truthy(link.accessToken) && Truthy(link.refreshToken)) ==> effects == [Navigate(Login)]
    ensures Truthy(link.accessToken) && Truthy(link.refreshToken) ==>
              var request := RequestSession(link.accessToken.value, link.refreshToken.value);
              && (reply.Err? ==> effects == [request, Navigate(Login)])
              && (reply.Ok? ==> effects == [request, StoreSession(reply.value), Navigate(Landing(link.linkType))])
  {
    var toLogin := [Navigate(Login)];
    assert toLogin[1..] == [];
    if Truthy(link.accessToken) && Truthy(link.refreshToken) then
      var request := RequestSession(link.accessToken.value, link.refreshToken.value);
      match reply
      case Err(_) =>
        assert ([request] + toLogin)[1..] == toLogin;
        [request] + toLogin
      case Ok(session) =>
        var landing := [Navigate(Landing(link.linkType))];
        assert landing[1..] == [];
        var prefix := [request, StoreSession(session)];
        assert prefix[1..][1..] == [];
        NavigationsAppend(prefix, landing);
        [request, StoreSession(session)] + landing
    else toLogin
  }

  /** What the handler's effects do to the auth store: each stored session goes
      through `setSession`. */
  function ApplyToStore(st: AuthStore.AuthState, effects: seq<Effect>): AuthStore.AuthState
    decreases |effects|
  {
    if |effects| == 0 then st
    else
      var next := if effects[0].StoreSession? then AuthStore.SetSession(st, effects[0].session) else st;
      ApplyToStore(next, effects[1..])
  }

  /** The store changes only when the exchange succeeded, and then it holds the
      returned session and no longer loads; every failure leaves it untouched. */
  lemma CallbackStore(st: AuthStore.AuthState, href: Outcome<Url>, reply: Outcome<Option<Session>>)
    ensures var effects := HandleCallback(href, reply);
            var stored := exists i :: 0 <= i < |effects| && effects[i].StoreSession?;
            && (stored <==> href.Ok? && reply.Ok? && var link := ReadLink(CallbackParams(href.value));
                                                   Truthy(link.accessToken) && Truthy(link.refreshToken))
            && (!stored ==> ApplyToStore(st, effects) == st)
            && (stored ==> ApplyToStore(st, effects) == AuthStore.SetSession(st, reply.value))
  {
    var effects := HandleCallback(href, reply);
    if href.Ok? {
      var link := ReadLink(CallbackParams(href.value));
      if Truthy(link.accessToken) && Truthy(link.refreshToken) {
        if reply.Ok? {
          var next := AuthStore.SetSession(st, reply.value);
          assert effects[1..][1..][1..] == [];
          assert ApplyToStore(st, effects) == ApplyToStore(st, effects[1..]);
          assert ApplyToStore(st, effects[1..]) == ApplyToStore(next, effects[1..][1..]);
          assert ApplyToStore(next, effects[1..][1..]) == next;
          assert effects[1].StoreSession?;
        } else {
          assert effects[1..][1..] == [];
        }
      } else {
        assert effects[1..] == [];
      }
    } else {
      assert effects[1..] == [];
    }
  }

  /** The layout's listener and the callback screen agree on a link without a
      fragment whose tokens were exchanged for a session; the callback alone
      sends every other link to the login page. */
  lemma ListenerAgreesWithCallback(url: Url, reply: Outcome<Option<Session>>)
    requires url.fragment == ""
    ensures var link := ReadLink(Parse(url.query));
            Truthy(link.accessToken) && Truthy(link.refreshToken) && reply.Ok? && reply.value.Some? ==>
              RootLayout.LayoutDeepLink(Ok(url), reply) == HandleCallback(Ok(url), reply)
  {
  }
}
