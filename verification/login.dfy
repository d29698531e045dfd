/** Local credential resolution: `User.passportVerify` (models/user.js).
    The identifier is tried as a username first and as an email only when
    no username matches; an unknown identifier and a wrong password are
    rejected with the same message. */
module Login {
  import opened Wrappers
  import opened Hashing
  import opened Store

  const IncorrectCredentials := "Incorrect username or password."

  datatype LoginResult = Authenticated(user: User) | Rejected(message: string)

  /** `getUserByUsername(identifier) || getUserByEmail(identifier)`. */
  function LookupIdentifier(s: Store, identifier: string): (r: Option<User>)
    ensures r.Some? ==> r.value in s.users
    ensures r.Some? ==> r.value.username == identifier || (r.value.email == identifier && !UsernameTaken(s, identifier))
    ensures r.None? <==> !UsernameTaken(s, identifier) && !EmailTaken(s, identifier)
  {
    match GetUserByUsername(s, identifier)
    case Some(u) => Some(u)
    case None => GetUserByEmail(s, identifier)
  }

  /** The identifier names `u`: as its username, or as its email when no
      user has that username. */
  predicate Names(s: Store, identifier: string, u: User)
  {
    u in s.users && (u.username == identifier || (u.email == identifier && !UsernameTaken(s, identifier)))
  }

  function PassportVerify(s: Store, h: Hasher, identifier: string, password: string): (r: LoginResult)
    ensures r.Rejected? ==> r.message == IncorrectCredentials
    ensures r.Authenticated? ==> Names(s, identifier, r.user) && h.compare(password, r.user.passwordHash)
    ensures !UsernameTaken(s, identifier) && !EmailTaken(s, identifier) ==> r == Rejected(IncorrectCredentials)
  {
    match LookupIdentifier(s, identifier)
    case None => Rejected(IncorrectCredentials)
    case Some(u) =>
      if !h.compare(password, u.passwordHash) then Rejected(IncorrectCredentials)
      else Authenticated(u)
  }

  /** In a valid store at most one user is named by an identifier. */
  lemma NamesUnique(s: Store, identifier: string, u: User, v: User)
    requires Valid(s)
    requires Names(s, identifier, u) && Names(s, identifier, v)
    ensures u == v
  {
    if u.username == identifier {
      FindOneUnique(s, ByUsername(identifier), u);
      if v.username == identifier {
        FindOneUnique(s, ByUsername(identifier), v);
      }
    } else {
      FindOneUnique(s, ByEmail(identifier), u);
      if v.username != identifier {
        FindOneUnique(s, ByEmail(identifier), v);
      }
    }
  }

  /** Login succeeds with `u` exactly when the identifier names `u` and the
      password matches `u`'s stored hash. */
  lemma LoginSucceedsIff(s: Store, h: Hasher, identifier: string, password: string, u: User)
    requires Valid(s)
    ensures PassportVerify(s, h, identifier, password) == Authenticated(u)
        <==> Names(s, identifier, u) && h.compare(password, u.passwordHash)
  {
    var r := PassportVerify(s, h, identifier, password);
    if Names(s, identifier, u) && h.compare(password, u.passwordHash) {
      var found := LookupIdentifier(s, identifier);
      assert found.Some? by {
        if u.username == identifier {
          assert UsernameTaken(s, identifier);
        } else {
          assert EmailTaken(s, identifier);
        }
      }
      NamesUnique(s, identifier, u, found.value);
    }
  }

  /** A username match wins over an email match: when one user's username
      is another user's email, the identifier logs in as the former. */
  lemma UsernameTakesPrecedence(s: Store, h: Hasher, identifier: string, password: string, byName: User)
    requires Valid(s)
    requires byName in s.users && byName.username == identifier
    ensures LookupIdentifier(s, identifier) == Some(byName)
    ensures PassportVerify(s, h, identifier, password).Authenticated? <==> h.compare(password, byName.passwordHash)
  {
    FindOneUnique(s, ByUsername(identifier), byName);
  }

  /** An unknown identifier and a wrong password for a known one give the
      same, user-less, rejection. */
  lemma RejectionsIndistinguishable(s: Store, h: Hasher, unknown: string, p1: string, known: string, p2: string)
    requires !UsernameTaken(s, unknown) && !EmailTaken(s, unknown)
    requires LookupIdentifier(s, known).Some? && !h.compare(p2, LookupIdentifier(s, known).value.passwordHash)
    ensures PassportVerify(s, h, unknown, p1) == PassportVerify(s, h, known, p2) == Rejected(IncorrectCredentials)
  {
  }

  /** `passport.authenticate('local', ...)` on POST /login: redirect to the
      root on success and back to the login page on failure. */
  function PostLogin(s: Store, h: Hasher, identifier: string, password: string): (location: string)
    ensures location == "/" <==> PassportVerify(s, h, identifier, password).Authenticated?
    ensures location == "/login" <==> PassportVerify(s, h, identifier, password).Rejected?
  {
    match PassportVerify(s, h, identifier, password)
    case Authenticated(_) => "/"
    case Rejected(_) => "/login"
  }
}
