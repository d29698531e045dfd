/** The gate each route of routes/routes.js is mounted behind, and the
    outcome of running that gate on a request. */
module Routes {
  import opened Wrappers
  import opened Store
  import opened Auth

  datatype Route =
    | PostRegister | PostLogin | GetLogin | GetRoot | PostRoot | PostLogout
    | GetProfile | PutProfile | GetUsers | GetLeaderboard
    | PostNewsletter | GetGoogle | GetGoogleCallback

  datatype Gate = Ungated | NoRedirectGate | UserGate | AdminGate

  function GateOf(route: Route): Gate
  {
    match route
    case GetProfile => NoRedirectGate
    case PutProfile => UserGate
    case _ => Ungated
  }

  /** Run the route's gate. An ungated route proceeds without binding. */
  function Admit(s: Store, route: Route, req: Request): (r: GateOutcome)
    ensures GateOf(route) == Ungated ==> r == Next(req)
    ensures GateOf(route) != Ungated ==> r.request == GrabLoggedInUser(s, req).request
    ensures GateOf(route) == NoRedirectGate ==> r.Next?
    ensures GateOf(route) == UserGate ==> (r.Next? <==> Principal(s, req).Some?)
    ensures GateOf(route) == AdminGate ==>
      (r.Next? <==> Principal(s, req).Some? && Principal(s, req).value.admin == Some(true))
    ensures r.RedirectTo? ==> r.location == LoginPage
  {
    match GateOf(route)
    case Ungated => Next(req)
    case NoRedirectGate => UserAuthNoRedirect(s, req)
    case UserGate => UserAuth(s, req)
    case AdminGate => AdminAuth(s, req)
  }

  /** GET /profile always reaches its handler, with or without a principal;
      PUT /profile reaches it only with one and otherwise redirects to the
      login page. */
  lemma ProfileRoutesGated(s: Store, req: Request)
    ensures Admit(s, GetProfile, req).Next?
    ensures Admit(s, GetProfile, req).request == GrabLoggedInUser(s, req).request
    ensures Admit(s, PutProfile, req).Next? <==> Principal(s, req).Some?
    ensures Admit(s, PutProfile, req).RedirectTo? ==> Admit(s, PutProfile, req).location == "/login"
  {
  }
}
