/** Federated find-or-create: `User.getUserByOauth` (models/user.js) and the
    `passport.serializeUser` callback (routes/routes.js). A link row keyed by
    (provider, providerId) belongs to one user; a first login creates the
    user and its link, later logins reuse the linked user. */
module Federated {
  import opened Wrappers
  import opened Store

  /** What passport hands to `serializeUser`: the User row a local login
      produced (it has no `provider` property), or a provider's profile. */
  datatype Profile =
    | LocalUser(user: User)
    | ProviderProfile(provider: string, providerId: string, displayName: Option<string>, emails: seq<string>)

  /** The session value passed to the callback, with the store afterwards.
      `CreateFailed` is a nested create the database refused: the callback
      is never called. */
  datatype SerializeOutcome = Serialized(key: SessionKey, store: Store) | CreateFailed(store: Store)

  predicate KeyedBy(l: OAuthLink, provider: string, providerId: string)
  {
    l.provider == provider && l.providerId == providerId
  }

  /** `OAuth.findOne({ where: { provider, id } })`. */
  function FindLink(links: seq<OAuthLink>, provider: string, providerId: string): (r: Option<OAuthLink>)
    ensures r.Some? ==> r.value in links && KeyedBy(r.value, provider, providerId)
    ensures r.None? <==> forall l :: l in links ==> !KeyedBy(l, provider, providerId)
  {
    if |links| == 0 then None
    else if KeyedBy(links[0], provider, providerId) then Some(links[0])
    else FindLink(links[1..], provider, providerId)
  }

  /** The user joined to link (provider, providerId), if there is one. */
  function GetUserByOauth(s: Store, provider: string, providerId: string): (r: Option<User>)
    ensures r.Some? ==> r.value in s.users
    ensures r.Some? ==> exists l :: l in s.links && KeyedBy(l, provider, providerId) && l.userId == r.value.id
    ensures (forall l :: l in s.links ==> !KeyedBy(l, provider, providerId)) ==> r.None?
  {
    match FindLink(s.links, provider, providerId)
    case None => None
    case Some(l) => FindOne(s, ById(l.userId))
  }

  /** `profile.emails?.[0]?.value`. */
  function FirstEmail(emails: seq<string>): Option<string>
  {
    if |emails| == 0 then None else Some(emails[0])
  }

  /** `OAuth.create` with the User included: the user row is inserted first
      and the link second, outside any transaction. When the link's key is
      already present the link insert fails after the user was written. */
  function CreateLinkedUser(s: Store, provider: string, providerId: string, username: Option<string>, email: Option<string>): (r: SerializeOutcome)
    ensures CreateUser(s, username, email, None).None? ==> r == CreateFailed(s)
    ensures r.Serialized? ==>
      && r.key == UserId(s.nextId)
      && r.store.users == s.users + [User(s.nextId, username.value, email.value, None, None)]
      && r.store.links == s.links + [OAuthLink(provider, providerId, s.nextId)]
      && r.store.nextId == s.nextId + 1
    ensures r.CreateFailed? && r.store != s ==>
      && (exists l :: l in s.links && KeyedBy(l, provider, providerId))
      && r.store.links == s.links
      && r.store.users == s.users + [User(s.nextId, username.value, email.value, None, None)]
  {
    match CreateUser(s, username, email, None)
    case None => CreateFailed(s)
    case Some((s1, u)) =>
      if FindLink(s.links, provider, providerId).Some? then CreateFailed(s1)
      else Serialized(UserId(u.id), s1.(links := s1.links + [OAuthLink(provider, providerId, u.id)]))
  }

  function SerializeUser(s: Store, profile: Profile): (r: SerializeOutcome)
    ensures profile.LocalUser? ==> r == Serialized(UserId(profile.user.id), s)
    ensures profile.ProviderProfile? && profile.provider == "" ==>
      r == Serialized(RawProfileId(profile.providerId), s)
    ensures profile.ProviderProfile? && profile.provider != "" && GetUserByOauth(s, profile.provider, profile.providerId).Some? ==>
      r == Serialized(UserId(GetUserByOauth(s, profile.provider, profile.providerId).value.id), s)
    ensures r.store != s ==>
      && profile.ProviderProfile?
      && profile.displayName.Some? && FirstEmail(profile.emails).Some?
      && r.store.users == s.users + [User(s.nextId, profile.displayName.value, FirstEmail(profile.emails).value, None, None)]
  {
    match profile
    case LocalUser(u) => Serialized(UserId(u.id), s)
    case ProviderProfile(provider, providerId, displayName, emails) =>
      if provider == "" then Serialized(RawProfileId(providerId), s)
      else
        match GetUserByOauth(s, provider, providerId)
        case Some(u) => Serialized(UserId(u.id), s)
        case None => CreateLinkedUser(s, provider, providerId, displayName, FirstEmail(emails))
  }

  /** In a valid store every link resolves to the user it belongs to. */
  lemma GetUserByOauthLinked(s: Store, l: OAuthLink)
    requires Valid(s)
    requires l in s.links
    ensures GetUserByOauth(s, l.provider, l.providerId).Some?
    ensures GetUserByOauth(s, l.provider, l.providerId).value.id == l.userId
  {
    var found := FindLink(s.links, l.provider, l.providerId).value;
    var i :| 0 <= i < |s.links| && s.links[i] == l;
    var j :| 0 <= j < |s.links| && s.links[j] == found;
    assert i == j by {
      if i != j {
        assert false;
      }
    }
    var w :| w in s.users && w.id == l.userId;
    FindOneUnique(s, ById(l.userId), w);
  }

  /** A first login for an unlinked (provider, providerId) whose display
      name and first email are free creates one user and one link and
      serializes to the new user's id. */
  lemma FirstLoginCreatesUserAndLink(s: Store, profile: Profile)
    requires Valid(s)
    requires profile.ProviderProfile? && profile.provider != ""
    requires forall l :: l in s.links ==> !KeyedBy(l, profile.provider, profile.providerId)
    requires profile.displayName.Some? && FirstEmail(profile.emails).Some?
    requires !UsernameTaken(s, profile.displayName.value) && !EmailTaken(s, FirstEmail(profile.emails).value)
    ensures SerializeUser(s, profile) == Serialized(UserId(s.nextId), Store(
      s.users + [User(s.nextId, profile.displayName.value, profile.emails[0], None, None)],
      s.links + [OAuthLink(profile.provider, profile.providerId, s.nextId)],
      s.nextId + 1))
  {
  }

  /** Serializing keeps the store valid, and in a valid store a refused
      nested create writes nothing: the link-collision path, which would
      leave a user without its link, cannot be reached. */
  lemma SerializePreservesValid(s: Store, profile: Profile)
    requires Valid(s)
    ensures Valid(SerializeUser(s, profile).store)
    ensures SerializeUser(s, profile).CreateFailed? ==> SerializeUser(s, profile).store == s
  {
    var r := SerializeUser(s, profile);
    if r.store != s {
      var provider, providerId := profile.provider, profile.providerId;
      var username, email := profile.displayName, FirstEmail(profile.emails);
      assert GetUserByOauth(s, provider, providerId).None?;
      assert FindLink(s.links, provider, providerId).None? by {
        if FindLink(s.links, provider, providerId).Some? {
          GetUserByOauthLinked(s, FindLink(s.links, provider, providerId).value);
        }
      }
      CreateUserPreservesValid(s, username, email, None);
      var s1 := CreateUser(s, username, email, None).value.0;
      var link := OAuthLink(provider, providerId, s.nextId);
      assert r.store == s1.(links := s1.links + [link]);
      assert s.nextId in UserIds(s1.users) by {
        assert s1.users[|s.users|] in s1.users;
      }
      forall i, j | 0 <= i < |r.store.links| && 0 <= j < |r.store.links| && i != j
        ensures !SameKey(r.store.links[i], r.store.links[j])
      {
        if i == |s.links| {
          assert s.links[j] in s.links;
        } else if j == |s.links| {
          assert s.links[i] in s.links;
        }
      }
    }
  }

  /** Logging in again with the same (provider, providerId) returns the same
      user id and adds no rows. */
  lemma RepeatLoginIdempotent(s: Store, profile: Profile)
    requires Valid(s)
    requires SerializeUser(s, profile).Serialized?
    ensures var r1 := SerializeUser(s, profile);
      SerializeUser(r1.store, profile) == r1
  {
    var r1 := SerializeUser(s, profile);
    SerializePreservesValid(s, profile);
    if profile.ProviderProfile? && profile.provider != "" {
      var s1 := r1.store;
      var l :| l in s1.links && KeyedBy(l, profile.provider, profile.providerId) && UserId(l.userId) == r1.key by {
        if r1.store == s {
          var u := GetUserByOauth(s, profile.provider, profile.providerId).value;
          var w :| w in s.links && KeyedBy(w, profile.provider, profile.providerId) && w.userId == u.id;
        } else {
          assert s1.links[|s.links|] in s1.links;
        }
      }
      GetUserByOauthLinked(s1, l);
    }
  }
}
