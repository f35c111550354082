/** The screens the app navigates to with `router.replace`, and the effects a
    deep-link handler has on the outside world, in the order it performs them. */
module Navigation {
  import opened Gateway

  /** The redirect targets used across the layout, the auth callback and the guard. */
  datatype Route = Login | ResetPassword | AppHome | AdminHome

  /** The route segments the router reports once the app shows `r`. */
  function Segments(r: Route): seq<string> {
    match r
    case Login => ["(auth)", "login"]
    case ResetPassword => ["(auth)", "reset-password"]
    case AppHome => ["(app)"]
    case AdminHome => ["(admin)"]
  }

  /** Where a verified email link lands: the password form for a recovery link,
      the app otherwise. */
  function Landing(linkType: Option<string>): (r: Route)
    ensures r == ResetPassword <==> linkType == Some("recovery")
    ensures r != ResetPassword ==> r == AppHome
  {
    if linkType == Some("recovery") then ResetPassword else AppHome
  }

  /** JavaScript truthiness of a `string | null`: present and not empty. */
  predicate Truthy(v: Option<string>) {
    v.Some? && v.value != ""
  }

  /** One observable step of a deep-link handler. */
  datatype Effect =
    | RequestSession(accessToken: string, refreshToken: string)
    | StoreSession(session: Option<Session>)
    | Navigate(to: Route)

  /** The number of navigations among `effects`. */
  function Navigations(effects: seq<Effect>): nat
    decreases |effects|
  {
    if |effects| == 0 then 0
    else (if effects[0].Navigate? then 1 else 0) + Navigations(effects[1..])
  }

  lemma {:induction false} NavigationsAppend(a: seq<Effect>, b: seq<Effect>)
    ensures Navigations(a + b) == Navigations(a) + Navigations(b)
    decreases |a|
  {
    if |a| > 0 {
      assert (a + b)[1..] == a[1..] + b;
      NavigationsAppend(a[1..], b);
    } else {
      assert a + b == b;
    }
  }
}
