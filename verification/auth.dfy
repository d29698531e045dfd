/** The per-request principal binder `grabLoggedInUser` and the three gates
    built on it (helpers/auth.js). A request starts with the session's user
    key and no principal; the first successful lookup caches the principal
    on the request, and a failed lookup caches nothing. */
module Auth {
  import opened Wrappers
  import opened Store

  /** `req.session.passport.user` and `req.authenticatedUser`. */
  datatype Request = Request(sessionUser: Option<SessionKey>, authenticatedUser: Option<User>)

  /** The request after binding, and how many store reads binding made. */
  datatype Binding = Binding(request: Request, lookups: nat)

  datatype GateOutcome = Next(request: Request) | RedirectTo(location: string, request: Request)

  const LoginPage := "/login"

  /** JavaScript truthiness of the session value. */
  predicate KeyTruthy(k: SessionKey)
  {
    match k
    case UserId(n) => n != 0
    case RawProfileId(raw) => raw != ""
  }

  /** `User.findByPk`. Only numeric keys are looked up; see README. */
  function FindByPk(s: Store, k: SessionKey): Option<User>
  {
    match k
    case UserId(n) => FindOne(s, ById(n))
    case RawProfileId(_) => None
  }

  /** The session names `u` as the logged-in user. */
  predicate SessionNames(s: Store, req: Request, u: User)
  {
    req.sessionUser == Some(UserId(u.id)) && u.id != 0 && u in s.users
  }

  function GrabLoggedInUser(s: Store, req: Request): (r: Binding)
    ensures r.lookups <= 1
    ensures r.request.sessionUser == req.sessionUser
    // an already bound principal is kept, with no store read
    ensures req.authenticatedUser.Some? ==> r == Binding(req, 0)
    // otherwise the store is read exactly when the session holds a truthy key
    ensures req.authenticatedUser.None? ==>
      (r.lookups == 1 <==> req.sessionUser.Some? && KeyTruthy(req.sessionUser.value))
    ensures req.authenticatedUser.None? && r.request.authenticatedUser.Some? ==>
      SessionNames(s, req, r.request.authenticatedUser.value)
    ensures req.authenticatedUser.None? && r.request.authenticatedUser.None? ==>
      forall u :: u in s.users ==> !SessionNames(s, req, u)
  {
    if req.authenticatedUser.Some? then Binding(req, 0)
    else if req.sessionUser.Some? && KeyTruthy(req.sessionUser.value) then
      match FindByPk(s, req.sessionUser.value)
      case Some(u) => Binding(req.(authenticatedUser := Some(u)), 1)
      case None => Binding(req, 1)
    else Binding(req, 0)
  }

  function Principal(s: Store, req: Request): Option<User>
  {
    GrabLoggedInUser(s, req).request.authenticatedUser
  }

  /** `adminAuth`: proceed when the principal's `admin` flag is truthy. */
  function AdminAuth(s: Store, req: Request): (r: GateOutcome)
    ensures r.request == GrabLoggedInUser(s, req).request
    ensures r.Next? <==> Principal(s, req).Some? && Principal(s, req).value.admin == Some(true)
    ensures r.RedirectTo? ==> r.location == LoginPage
  {
    var bound := GrabLoggedInUser(s, req).request;
    if bound.authenticatedUser.Some? && bound.authenticatedUser.value.admin == Some(true) then Next(bound)
    else RedirectTo(LoginPage, bound)
  }

  /** `userAuth`: proceed when there is a principal. */
  function UserAuth(s: Store, req: Request): (r: GateOutcome)
    ensures r.request == GrabLoggedInUser(s, req).request
    ensures r.Next? <==> Principal(s, req).Some?
    ensures r.RedirectTo? ==> r.location == LoginPage
  {
    var bound := GrabLoggedInUser(s, req).request;
    if bound.authenticatedUser.Some? then Next(bound) else RedirectTo(LoginPage, bound)
  }

  /** `userAuthNoRedirect`: bind, then always proceed. */
  function UserAuthNoRedirect(s: Store, req: Request): (r: GateOutcome)
    ensures r.Next?
    ensures r.request == GrabLoggedInUser(s, req).request
  {
    Next(GrabLoggedInUser(s, req).request)
  }

  /** In a valid store a fresh request's principal is the user whose id the
      session holds, or absent when no user has that id. */
  lemma PrincipalFromSession(s: Store, req: Request, u: User)
    requires Valid(s)
    requires req.authenticatedUser.None?
    requires u in s.users && req.sessionUser == Some(UserId(u.id))
    ensures Principal(s, req) == Some(u)
    ensures GrabLoggedInUser(s, req).lookups == 1
  {
    FindOneUnique(s, ById(u.id), u);
  }

  /** Binding twice binds once: the second call changes nothing, and reads
      the store again only if the first found nobody. */
  lemma BindingIdempotent(s: Store, req: Request)
    ensures var b1 := GrabLoggedInUser(s, req);
      var b2 := GrabLoggedInUser(s, b1.request);
      && b2.request == b1.request
      && (b1.request.authenticatedUser.Some? ==> b2.lookups == 0)
  {
  }

  /** Absence is not cached: when the session holds a truthy key that finds
      no user, every later call reads the store again. */
  lemma AbsenceNotCached(s: Store, req: Request)
    requires req.authenticatedUser.None? && req.sessionUser.Some? && KeyTruthy(req.sessionUser.value)
    requires Principal(s, req).None?
    ensures GrabLoggedInUser(s, GrabLoggedInUser(s, req).request).lookups == 1
  {
  }

  /** Every request `adminAuth` admits, `userAuth` admits too, with the same
      bound request. */
  lemma AdminImpliesUser(s: Store, req: Request)
    ensures AdminAuth(s, req).Next? ==> UserAuth(s, req) == AdminAuth(s, req)
  {
  }
}
