/** `User.prototype.privateProfile` (models/user.js) and the public and
    summary projections built from the field lists of helpers/globals.js. */
module Profile {
  import opened Wrappers
  import opened Globals
  import opened Http
  import opened Store

  /** `user[name]` on a User instance, for the schema's declared attributes
      (id, username, email, passwordHash), `admin` (read as whatever was set
      on the instance) and any other name, `bio` included, that the schema
      does not declare and that reads as undefined. The automatic
      `createdAt`/`updatedAt` timestamps are not modelled: they also read as
      undefined here. */
  function UserField(u: User, name: string): FieldValue
  {
    if name == "id" then FInt(u.id)
    else if name == "username" then FStr(u.username)
    else if name == "email" then FStr(u.email)
    else if name == "passwordHash" then
      (match u.passwordHash case Some(h) => FStr(h) case None => FNull)
    else if name == "admin" then
      (match u.admin case Some(b) => FBool(b) case None => FUndefined)
    else FUndefined
  }

  /** The object built by copying each listed property of `u`. */
  function Project(u: User, fields: seq<string>): (r: map<string, FieldValue>)
    ensures r.Keys == set f | f in fields
    ensures forall f :: f in r ==> r[f] == UserField(u, f)
  {
    if |fields| == 0 then map[]
    else Project(u, fields[1..])[fields[0] := UserField(u, fields[0])]
  }

  function PrivateProfile(u: User): (r: map<string, FieldValue>)
    ensures r.Keys == {"id", "username", "email", "bio"}
    ensures r["id"] == FInt(u.id)
    ensures r["username"] == FStr(u.username)
    ensures r["email"] == FStr(u.email)
    ensures r["bio"] == FUndefined
    ensures "passwordHash" !in r
  {
    Project(u, PrivateProfileFields)
  }

  function PublicProfile(u: User): map<string, FieldValue>
  {
    Project(u, PublicProfileFields)
  }

  function SummaryProfile(u: User): map<string, FieldValue>
  {
    Project(u, SummaryProfileFields)
  }

  /** Dropping a name from the field list drops exactly that key from the
      projection. It follows from the contracts of `Project` and `Without`,
      which fix a projection's keys and values. */
  lemma ProjectWithout(u: User, fields: seq<string>, name: string)
    ensures Project(u, Without(fields, name)) == Project(u, fields) - {name}
  {
  }

  /** The public profile is the private profile less the email, and the
      summary profile is the public profile. */
  lemma PublicIsPrivateWithoutEmail(u: User)
    ensures PublicProfile(u) == PrivateProfile(u) - {"email"}
    ensures SummaryProfile(u) == PublicProfile(u)
    ensures "email" !in PublicProfile(u)
  {
    ProfileFieldLists();
    ProjectWithout(u, PrivateProfileFields, "email");
  }
}
