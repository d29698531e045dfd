/** `registerUser` (controllers/user.js): an ordered list of checks, each
    answering 400 or 409 and writing nothing, followed by one insert. */
module Registration {
  import opened Wrappers
  import opened Globals
  import opened Http
  import opened Hashing
  import opened Store
  import Login

  /** The string fields of the request body; `None` is a missing field. */
  datatype RegisterRequest = RegisterRequest(username: Option<string>, email: Option<string>, password: Option<string>)

  datatype RegisterOutcome = RegisterOutcome(response: Response, store: Store)

  const MissingPasswordMessage := "Missing password."
  const ShortPasswordMessage := "Password must be at least " + DecimalString(MinimumPasswordLength) + " characters long."
  const MissingUsernameMessage := "Missing username."
  const LongUsernameMessage := "Username may not be longer than " + DecimalString(MaximumUsernameLength) + " characters."
  const MissingEmailMessage := "Missing email."
  const UsernameInUseMessage := "Username already in use."
  const EmailInUseMessage := "Email already in use."
  const RegisteredMessage := "User registered"

  /** JavaScript truthiness of an optional string: present and non-empty. */
  predicate Truthy(field: Option<string>)
  {
    field.Some? && field.value != ""
  }

  /** Everything a registration needs to succeed, stated over the store's
      rows rather than its lookups. */
  predicate Admissible(s: Store, req: RegisterRequest)
  {
    && Truthy(req.password) && |req.password.value| >= MinimumPasswordLength
    && Truthy(req.username) && |req.username.value| <= MaximumUsernameLength
    && Truthy(req.email)
    && !UsernameTaken(s, req.username.value)
    && !EmailTaken(s, req.email.value)
  }

  function Reject(s: Store, status: nat, error: string): RegisterOutcome
  {
    RegisterOutcome(Error(status, error), s)
  }

  function RegisterUser(s: Store, h: Hasher, req: RegisterRequest): (r: RegisterOutcome)
    // the password checks come before everything else
    ensures !Truthy(req.password) ==> r == Reject(s, 400, MissingPasswordMessage)
    ensures Truthy(req.password) && |req.password.value| < MinimumPasswordLength ==>
      r == Reject(s, 400, ShortPasswordMessage)
    // success and its absence
    ensures r.response.status == 200 <==> Admissible(s, req)
    ensures r.response.status != 200 ==> r.store == s && r.response.body.ErrorBody?
    ensures r.response.status != 200 ==> r.response.status in {400, 409}
    ensures r.response.status == 200 ==>
      && r.response.body == MessageBody(RegisteredMessage)
      && r.store.links == s.links
      && r.store.nextId == s.nextId + 1
      && r.store.users == s.users + [User(s.nextId, req.username.value, req.email.value, Some(h.hash(req.password.value)), None)]
  {
    if !Truthy(req.password) then Reject(s, 400, MissingPasswordMessage)
    else if |req.password.value| < MinimumPasswordLength then Reject(s, 400, ShortPasswordMessage)
    else
      var passwordHash := h.hash(req.password.value);
      if !Truthy(req.username) then Reject(s, 400, MissingUsernameMessage)
      else if |req.username.value| > MaximumUsernameLength then Reject(s, 400, LongUsernameMessage)
      else if !Truthy(req.email) then Reject(s, 400, MissingEmailMessage)
      else if GetUserByUsername(s, req.username.value).Some? then Reject(s, 409, UsernameInUseMessage)
      else if GetUserByEmail(s, req.email.value).Some? then Reject(s, 409, EmailInUseMessage)
      else
        var (s', _) := AppendUser(s, req.username.value, req.email.value, Some(passwordHash));
        RegisterOutcome(Response(200, MessageBody(RegisteredMessage)), s')
  }

  /** Which 400 answers the username and email checks give, in order, once
      the password is acceptable. */
  lemma FieldChecksInOrder(s: Store, h: Hasher, req: RegisterRequest)
    requires Truthy(req.password) && |req.password.value| >= MinimumPasswordLength
    ensures !Truthy(req.username) ==> RegisterUser(s, h, req) == Reject(s, 400, MissingUsernameMessage)
    ensures Truthy(req.username) && |req.username.value| > MaximumUsernameLength ==>
      RegisterUser(s, h, req) == Reject(s, 400, LongUsernameMessage)
    ensures Truthy(req.username) && |req.username.value| <= MaximumUsernameLength && !Truthy(req.email) ==>
      RegisterUser(s, h, req) == Reject(s, 400, MissingEmailMessage)
  {
  }

  /** The 409 answers: a taken username is reported even when the email is
      taken too, and a taken email otherwise. */
  lemma ConflictsInOrder(s: Store, h: Hasher, req: RegisterRequest)
    requires Truthy(req.password) && |req.password.value| >= MinimumPasswordLength
    requires Truthy(req.username) && |req.username.value| <= MaximumUsernameLength
    requires Truthy(req.email)
    ensures UsernameTaken(s, req.username.value) ==>
      RegisterUser(s, h, req) == Reject(s, 409, UsernameInUseMessage)
    ensures !UsernameTaken(s, req.username.value) && EmailTaken(s, req.email.value) ==>
      RegisterUser(s, h, req) == Reject(s, 409, EmailInUseMessage)
  {
    if UsernameTaken(s, req.username.value) {
      var u :| u in s.users && u.username == req.username.value;
      assert Matches(u, ByUsername(req.username.value));
    } else if EmailTaken(s, req.email.value) {
      var u :| u in s.users && u.email == req.email.value;
      assert Matches(u, ByEmail(req.email.value));
    }
  }

  /** The length limits are inclusive: a 6-character password and a
      20-character username are accepted. */
  lemma BoundaryLengthsAccepted(s: Store, h: Hasher, req: RegisterRequest)
    requires req.password.Some? && |req.password.value| == MinimumPasswordLength
    requires req.username.Some? && |req.username.value| == MaximumUsernameLength
    requires Truthy(req.email)
    requires !UsernameTaken(s, req.username.value) && !EmailTaken(s, req.email.value)
    ensures RegisterUser(s, h, req).response.status == 200
  {
  }

  /** Registration keeps usernames, emails and ids unique. */
  lemma RegisterPreservesValid(s: Store, h: Hasher, req: RegisterRequest)
    requires Valid(s)
    ensures Valid(RegisterUser(s, h, req).store)
  {
    if Admissible(s, req) {
      AppendUserPreservesValid(s, req.username.value, req.email.value, Some(h.hash(req.password.value)));
    }
  }

  /** A second registration with a username already registered is refused
      with 409 and leaves the first record as it was. */
  lemma DuplicateUsernameRefused(s: Store, h: Hasher, first: RegisterRequest, second: RegisterRequest)
    requires RegisterUser(s, h, first).response.status == 200
    requires second.username == first.username
    requires Truthy(second.password) && |second.password.value| >= MinimumPasswordLength
    requires Truthy(second.email)
    ensures var s1 := RegisterUser(s, h, first).store;
      && RegisterUser(s1, h, second) == Reject(s1, 409, UsernameInUseMessage)
      && s1.users[|s.users|].email == first.email.value
  {
    var s1 := RegisterUser(s, h, first).store;
    var u := s1.users[|s.users|];
    assert u in s1.users && u.username == first.username.value;
    ConflictsInOrder(s1, h, second);
  }

  /** A user just registered can log in with its username and password. */
  lemma RegisterThenLogin(s: Store, h: Hasher, req: RegisterRequest)
    requires Valid(s) && Sound(h)
    requires RegisterUser(s, h, req).response.status == 200
    ensures var s1 := RegisterUser(s, h, req).store;
      Login.PassportVerify(s1, h, req.username.value, req.password.value) == Login.Authenticated(s1.users[|s.users|])
  {
    var s1 := RegisterUser(s, h, req).store;
    var u := s1.users[|s.users|];
    RegisterPreservesValid(s, h, req);
    assert u in s1.users;
    Login.LoginSucceedsIff(s1, h, req.username.value, req.password.value, u);
  }

  /** The scenario of a fresh database: "alice" registers, and registering
      "alice" again with another email is refused with 409. */
  lemma AliceScenario(h: Hasher)
    ensures var first := RegisterRequest(Some("alice"), Some("a@x.com"), Some("secret1"));
      var second := RegisterRequest(Some("alice"), Some("b@x.com"), Some("secret1"));
      var r1 := RegisterUser(Empty, h, first);
      && r1.response == Response(200, MessageBody("User registered"))
      && RegisterUser(r1.store, h, second).response == Response(409, ErrorBody("Username already in use."))
  {
    var first := RegisterRequest(Some("alice"), Some("a@x.com"), Some("secret1"));
    var second := RegisterRequest(Some("alice"), Some("b@x.com"), Some("secret1"));
    DuplicateUsernameRefused(Empty, h, first, second);
  }

  lemma MessagesSpelledOut()
    ensures ShortPasswordMessage == "Password must be at least 6 characters long."
    ensures LongUsernameMessage == "Username may not be longer than 20 characters."
  {
    LengthLimits();
  }
}
