/** The verify callback of the Google OAuth strategy: find the user by the first email
    of the Google profile, fill in a missing googleId and name, or create an OAuth-only
    user. Its result is the id handed to `done`, or the error passed to it. */
module GoogleAuth {
  import opened Wrappers
  import opened Text
  import opened Jwt
  import opened UserModel
  import opened MfaCode
  import opened Store

  /** The part of the Google profile the callback reads. */
  datatype Profile = Profile(id: string, displayName: Option<string>, emails: seq<string>)

  /** An existing record after the callback filled in what was absent (through the
      name's `trim` setter). */
  function Merged(u: User, p: Profile): User {
    u.(googleId := if Truthy(u.googleId) then u.googleId else Some(p.id),
       name := if u.name == "" then Trim(p.displayName.GetOr("")) else u.name)
  }

  /** A googleId or name already set is never overwritten, an absent one takes the
      profile's value, and nothing else of the record changes. */
  lemma MergedKeepsExisting(u: User, p: Profile)
    ensures Truthy(u.googleId) ==> Merged(u, p).googleId == u.googleId
    ensures !Truthy(u.googleId) ==> Merged(u, p).googleId == Some(p.id)
    ensures u.name != "" ==> Merged(u, p).name == u.name
    ensures Merged(u, p).(googleId := u.googleId, name := u.name) == u
    ensures Truthy(u.googleId) && u.name != "" ==> Merged(u, p) == u
  {
  }

  /** The record `User.create` builds for a profile with no matching user, the name
      and email through their setters. */
  function GoogleRecord(id: Id, p: Profile, email: string): User {
    User(id, Trim(p.displayName.GetOr("")), NormalEmail(email), None, Some(p.id), "user", ["read"], false, None, None, 0, None)
  }

  /** A new OAuth user has role 'user', permission 'read', MFA off and no failed
      attempts; it has no password, which the schema accepts exactly because its
      googleId is set. */
  lemma GoogleRecordValid(id: Id, p: Profile, email: string)
    ensures var u := GoogleRecord(id, p, email);
      u.role == "user" && u.permissions == ["read"] && !u.mfaEnabled && u.loginAttempts == 0 && u.password.None?
    ensures SchemaValid(GoogleRecord(id, p, email), None) <==>
      p.id != "" && Trim(p.displayName.GetOr("")) != "" && Trim(email) != ""
    ensures StoredUser(GoogleRecord(id, p, email)) <==> SchemaValid(GoogleRecord(id, p, email), None)
  {
    var u := GoogleRecord(id, p, email);
    assert u.permissions[0] == "read";
    SetterRecord(u, p.displayName.GetOr(""), email);
    FreshRecordStored(u);
  }

  /** Filling in a record keeps it in the setters' form. */
  lemma MergedSettersApplied(u: User, p: Profile)
    requires SettersApplied(u)
    ensures SettersApplied(Merged(u, p))
  {
    SettersOutput(p.displayName.GetOr(""), u.email);
  }

  /** The strategy callback. `profile.emails[0]` of a profile without emails throws,
      and so does a save the schema or a unique index refuses. */
  method FindOrCreate(b: Backend, p: Profile) returns (r: Result<Id, string>)
    requires b.Valid()
    modifies b`users, b`nextId
    ensures b.Valid()
    ensures p.emails == [] ==> r.Err? && b.users == old(b.users)
    ensures p.emails != [] && UserWithEmail(old(b.users), p.emails[0]).Some? ==>
      var u := UserWithEmail(old(b.users), p.emails[0]).value;
      var v := Merged(u, p);
      (r.Ok? <==> SchemaValid(v, None) && !Clashes(old(b.users), v)) &&
      (r.Ok? ==> r.value == u.id && b.users == old(b.users)[u.id := v]) &&
      (r.Err? ==> b.users == old(b.users))
    ensures p.emails != [] && UserWithEmail(old(b.users), p.emails[0]).None? ==>
      var u := GoogleRecord(old(b.nextId), p, p.emails[0]);
      (r.Ok? <==> SchemaValid(u, None) && !Clashes(old(b.users), u)) &&
      (r.Ok? ==> r.value == u.id && u.id !in old(b.users) && b.users == old(b.users)[u.id := u]) &&
      (r.Err? ==> b.users == old(b.users))
    ensures r.Ok? ==> r.value in b.users
  {
    if p.emails == [] {
      return Err("Cannot read properties of undefined (reading 'value')");
    }
    var existing := b.FindUserByEmail(p.emails[0]);
    if existing.Some? {
      r := UpdateExisting(b, existing.value, p);
    } else {
      r := CreateFromProfile(b, p, p.emails[0]);
    }
  }

  /** The branch for a user found by email: fill in what is absent and save. */
  method UpdateExisting(b: Backend, u: User, p: Profile) returns (r: Result<Id, string>)
    requires b.Valid() && u.id in b.users && b.users[u.id] == u
    modifies b`users
    ensures b.Valid()
    ensures var v := Merged(u, p);
      (r.Ok? <==> SchemaValid(v, None) && !Clashes(old(b.users), v)) &&
      (r.Ok? ==> r.value == u.id && b.users == old(b.users)[u.id := v]) &&
      (r.Err? ==> b.users == old(b.users))
  {
    var v := u;
    if !Truthy(u.googleId) {
      v := v.(googleId := Some(p.id));
    }
    if u.name == "" {
      v := v.(name := Trim(p.displayName.GetOr("")));
    }
    MergedSettersApplied(u, p);
    var err := b.SaveUser(v, None, 0);
    if err.Some? {
      return Err("save failed");
    }
    r := Ok(u.id);
  }

  /** The branch for an unknown email: `User.create` from the profile. */
  method CreateFromProfile(b: Backend, p: Profile, email: string) returns (r: Result<Id, string>)
    requires b.Valid()
    modifies b`users, b`nextId
    ensures b.Valid()
    ensures var u := GoogleRecord(old(b.nextId), p, email);
      (r.Ok? <==> SchemaValid(u, None) && !Clashes(old(b.users), u)) &&
      (r.Ok? ==> r.value == u.id && u.id !in old(b.users) && b.users == old(b.users)[u.id := u]) &&
      (r.Err? ==> b.users == old(b.users))
  {
    var id := b.NewId();
    var created := GoogleRecord(id, p, email);
    GoogleRecordValid(id, p, email);
    SetterRecord(created, p.displayName.GetOr(""), email);
    var err := b.SaveUser(created, None, 0);
    if err.Some? {
      return Err("save failed");
    }
    r := Ok(id);
  }
}
