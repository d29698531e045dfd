/** The credential store: the User table (models/user.js) and the OAuth link
    table (models/oauth.js, associated in models/combined.js), held in memory
    in insertion order. A lookup returns the first matching row, as
    `findOne` does on a table without an ORDER BY. */
module Store {
  import opened Wrappers

  /** One row of the User table. `admin` is not a declared attribute of the
      schema; it is present only when something has set it. */
  datatype User = User(
    id: nat,
    username: string,
    email: string,
    passwordHash: Option<string>,
    admin: Option<bool>)

  /** One row of the OAuth table: the composite key (provider, providerId)
      and the id of the user it belongs to. */
  datatype OAuthLink = OAuthLink(provider: string, providerId: string, userId: nat)

  datatype Store = Store(users: seq<User>, links: seq<OAuthLink>, nextId: nat)

  /** A fresh database: no rows, and the auto-increment key starts at 1. */
  const Empty := Store([], [], 1)

  /** The value passport keeps in the session after `serializeUser`: a user
      id, or the raw id of a profile that carries no provider. */
  datatype SessionKey = UserId(id: nat) | RawProfileId(raw: string)

  /** The columns users are looked up by. */
  datatype UserKey = ByUsername(username: string) | ByEmail(email: string) | ById(id: nat)

  predicate Matches(u: User, k: UserKey)
  {
    match k
    case ByUsername(n) => u.username == n
    case ByEmail(e) => u.email == e
    case ById(i) => u.id == i
  }

  /** Position of the first row matching `k`. */
  function FirstIndex(users: seq<User>, k: UserKey): (r: Option<nat>)
    ensures r.Some? ==> r.value < |users| && Matches(users[r.value], k)
    ensures r.Some? ==> forall j :: 0 <= j < r.value ==> !Matches(users[j], k)
    ensures r.None? ==> forall j :: 0 <= j < |users| ==> !Matches(users[j], k)
  {
    if |users| == 0 then None
    else if Matches(users[0], k) then Some(0)
    else
      match FirstIndex(users[1..], k)
      case None => None
      case Some(i) => Some(i + 1)
  }

  /** `User.findOne({ where: ... })` on one column. */
  function FindOne(s: Store, k: UserKey): (r: Option<User>)
    ensures r.Some? ==> r.value in s.users && Matches(r.value, k)
    ensures r.None? <==> forall u :: u in s.users ==> !Matches(u, k)
  {
    match FirstIndex(s.users, k)
    case None => None
    case Some(i) => Some(s.users[i])
  }

  function GetUserByUsername(s: Store, username: string): Option<User>
  {
    FindOne(s, ByUsername(username))
  }

  function GetUserByEmail(s: Store, email: string): Option<User>
  {
    FindOne(s, ByEmail(email))
  }

  predicate UsernameTaken(s: Store, username: string)
  {
    exists u :: u in s.users && u.username == username
  }

  predicate EmailTaken(s: Store, email: string)
  {
    exists u :: u in s.users && u.email == email
  }

  function UserIds(users: seq<User>): set<nat>
  {
    set u | u in users :: u.id
  }

  predicate SameKey(a: OAuthLink, b: OAuthLink)
  {
    a.provider == b.provider && a.providerId == b.providerId
  }

  /** The schema's guarantees, plus the one the sequential model keeps on
      its own: ids, usernames and emails are unique; every id was issued by
      the auto-increment counter (which starts at 1); link keys are unique;
      every link belongs to an existing user. */
  predicate Valid(s: Store)
  {
    && (forall i, j :: 0 <= i < |s.users| && 0 <= j < |s.users| && i != j ==>
          && s.users[i].id != s.users[j].id
          && s.users[i].username != s.users[j].username
          && s.users[i].email != s.users[j].email)
    && 1 <= s.nextId
    && (forall i :: 0 <= i < |s.users| ==> 1 <= s.users[i].id < s.nextId)
    && (forall i, j :: 0 <= i < |s.links| && 0 <= j < |s.links| && i != j ==>
          !SameKey(s.links[i], s.links[j]))
    && (forall i :: 0 <= i < |s.links| ==> s.links[i].userId in UserIds(s.users))
  }

  /** The row an unconstrained insert appends: the next auto-increment id,
      and no admin flag. */
  function AppendUser(s: Store, username: string, email: string, passwordHash: Option<string>): (r: (Store, User))
    ensures r.1.id == s.nextId && r.1.username == username && r.1.email == email
    ensures r.1.passwordHash == passwordHash && r.1.admin == None
    ensures r.0 == s.(users := s.users + [r.1], nextId := s.nextId + 1)
  {
    var u := User(s.nextId, username, email, passwordHash, None);
    (s.(users := s.users + [u], nextId := s.nextId + 1), u)
  }

  /** `User.create`: the database refuses a row whose username or email is
      null (allowNull: false) or already present (unique: true), and then
      no row is written. The id counter advances only on success; engines
      whose sequences advance on a refused INSERT are not modelled. */
  function CreateUser(s: Store, username: Option<string>, email: Option<string>, passwordHash: Option<string>): (r: Option<(Store, User)>)
    ensures r.None? <==>
      username.None? || email.None? || UsernameTaken(s, username.value) || EmailTaken(s, email.value)
    ensures r.Some? ==> r.value == AppendUser(s, username.value, email.value, passwordHash)
  {
    if username.None? || email.None? then None
    else if GetUserByUsername(s, username.value).Some? || GetUserByEmail(s, email.value).Some? then None
    else Some(AppendUser(s, username.value, email.value, passwordHash))
  }

  /** In a valid store a lookup finds the one row holding the value. */
  lemma FindOneUnique(s: Store, k: UserKey, u: User)
    requires Valid(s)
    requires u in s.users && Matches(u, k)
    ensures FindOne(s, k) == Some(u)
  {
    var i :| 0 <= i < |s.users| && s.users[i] == u;
    var j := FirstIndex(s.users, k).value;
    if i != j {
      assert false;
    }
  }

  /** Inserting a user whose username and email are free keeps the store
      valid. */
  lemma AppendUserPreservesValid(s: Store, username: string, email: string, passwordHash: Option<string>)
    requires Valid(s)
    requires !UsernameTaken(s, username) && !EmailTaken(s, email)
    ensures Valid(AppendUser(s, username, email, passwordHash).0)
  {
    var (s', u) := AppendUser(s, username, email, passwordHash);
    forall i, j | 0 <= i < |s'.users| && 0 <= j < |s'.users| && i != j
      ensures s'.users[i].id != s'.users[j].id
      ensures s'.users[i].username != s'.users[j].username
      ensures s'.users[i].email != s'.users[j].email
    {
      if i == |s.users| {
        assert s'.users[j] == s.users[j] && s.users[j] in s.users;
      } else if j == |s.users| {
        assert s'.users[i] == s.users[i] && s.users[i] in s.users;
      }
    }
    forall i | 0 <= i < |s'.links|
      ensures s'.links[i].userId in UserIds(s'.users)
    {
      var w :| w in s.users && w.id == s.links[i].userId;
      assert w in s'.users;
    }
  }

  /** A successful `User.create` keeps the store valid. */
  lemma CreateUserPreservesValid(s: Store, username: Option<string>, email: Option<string>, passwordHash: Option<string>)
    requires Valid(s)
    requires CreateUser(s, username, email, passwordHash).Some?
    ensures Valid(CreateUser(s, username, email, passwordHash).value.0)
  {
    AppendUserPreservesValid(s, username.value, email.value, passwordHash);
  }
}
