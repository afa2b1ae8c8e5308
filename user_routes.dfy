/** The routes under `/api/users` that change records: the caller's own profile
    update with its guarded password change, and the administrator's create, update
    and delete. */
module UserRoutes {
  import opened Wrappers
  import opened Text
  import opened Jwt
  import opened UserModel
  import opened MfaCode
  import opened Store
  import opened Http

  /** `PUT /profile`: a truthy email is assigned through its setters; a password
      change needs both passwords, and a current password that does not verify ends
      the request before anything, the email included, is saved. An email that is
      white space only fails validation and a taken one the unique index; both answer
      500. */
  method UpdateProfile(b: Backend, claims: Claims, email: Option<string>, currentPassword: Option<string>,
                       newPassword: Option<string>, salt: nat) returns (reply: Reply)
    requires b.Valid()
    modifies b`users
    ensures b.Valid()
    ensures match old(b.LookupUser(claims.userId))
      case CastError => reply == Reply(500, Message("Error updating profile")) && b.users == old(b.users)
      case Missing => reply == Reply(404, Message("User not found")) && b.users == old(b.users)
      case Found(u) =>
        var changing := Truthy(currentPassword) && Truthy(newPassword);
        var edited := if Truthy(email) then u.(email := NormalEmail(email.value)) else u;
        var pending := if changing then newPassword else None;
        (changing && Compare(currentPassword, u.password).Err? ==>
          reply == Reply(500, Message("Error updating profile")) && b.users == old(b.users)) &&
        (changing && Compare(currentPassword, u.password) == Ok(false) ==>
          reply == Reply(401, Message("Current password is incorrect")) && b.users == old(b.users)) &&
        (!changing || Compare(currentPassword, u.password) == Ok(true) ==>
          (!SchemaValid(edited, pending) || Clashes(old(b.users), edited) ==>
            reply == Reply(500, Message("Error updating profile")) && b.users == old(b.users)) &&
          (SchemaValid(edited, pending) && !Clashes(old(b.users), edited) ==>
            reply == Reply(200, Message("Profile updated successfully")) &&
            b.users == old(b.users)[u.id := Hashed(edited, pending, salt)]))
  {
    var found := b.LookupUser(claims.userId);
    if found.CastError? {
      return Reply(500, Message("Error updating profile"));
    }
    if found.Missing? {
      return Reply(404, Message("User not found"));
    }
    var u := found.doc;
    var edited := if Truthy(email) then u.(email := NormalEmail(email.value)) else u;
    assert SettersApplied(b.users[u.id]);
    SettersOutput(u.name, email.GetOr(""));
    var pending: Option<string> := None;
    if Truthy(currentPassword) && Truthy(newPassword) {
      var valid := Compare(currentPassword, u.password);
      if valid.Err? {
        return Reply(500, Message("Error updating profile"));
      }
      if !valid.value {
        return Reply(401, Message("Current password is incorrect"));
      }
      pending := newPassword;
    }
    var err := b.SaveUser(edited, pending, salt);
    if err.Some? {
      return Reply(500, Message("Error updating profile"));
    }
    reply := Reply(200, Message("Profile updated successfully"));
  }

  /** The record the administrator's create builds: the body names no `name`, so the
      field is left empty; the email goes through its setters. */
  function CreatedRecord(id: Id, email: string, role: Option<string>, permissions: Option<seq<string>>): (u: User)
    ensures u.name == ""
  {
    User(id, "", NormalEmail(email), None, None, role.GetOr("user"), permissions.GetOr([]), false, None, None, 0, None)
  }

  /** `POST /`: an email already present is refused; otherwise a record without a name
      is built, which the schema refuses, so the route answers 500 and stores
      nothing. */
  method CreateUser(b: Backend, email: Option<string>, password: Option<string>, role: Option<string>,
                    permissions: Option<seq<string>>, salt: nat) returns (reply: Reply)
    requires b.Valid()
    modifies b`users, b`nextId
    ensures b.Valid()
    ensures b.users == old(b.users)
    ensures email.Some? && UserWithEmail(old(b.users), email.value).Some? ==>
      reply == Reply(400, Message("User already exists"))
    ensures !(email.Some? && UserWithEmail(old(b.users), email.value).Some?) ==>
      reply == Reply(500, Message("Error creating user"))
  {
    if email.Some? {
      var existing := b.FindUserByEmail(email.value);
      if existing.Some? {
        return Reply(400, Message("User already exists"));
      }
    }
    var id := b.NewId();
    var u := CreatedRecord(id, email.GetOr(""), role, permissions);
    SettersOutput("", email.GetOr(""));
    var err := b.SaveUser(u, password, salt);
    assert err == Some(ValidationError);
    reply := Reply(500, Message("Error creating user"));
  }

  /** `PUT /:userId`: role, permissions and lock are overwritten only when supplied
      (truthy: a lock time of 0 is ignored); the save refuses a role or permission
      outside the enumerations. */
  method AdminUpdateUser(b: Backend, id: ObjectRef, role: Option<string>, permissions: Option<seq<string>>,
                         lockedUntil: Option<int>) returns (reply: Reply)
    requires b.Valid()
    modifies b`users
    ensures b.Valid()
    ensures match old(b.LookupUser(Some(id)))
      case CastError => reply == Reply(500, Message("Error updating user")) && b.users == old(b.users)
      case Missing => reply == Reply(404, Message("User not found")) && b.users == old(b.users)
      case Found(u) =>
        var v := u.(role := if Truthy(role) then role.value else u.role,
                    permissions := if permissions.Some? then permissions.value else u.permissions,
                    lockedUntil := if lockedUntil.Some? && lockedUntil.value != 0 then lockedUntil else u.lockedUntil);
        (SchemaValid(v, None) ==>
          reply == Reply(200, Message("User updated successfully")) && b.users == old(b.users)[u.id := v]) &&
        (!SchemaValid(v, None) ==>
          reply == Reply(500, Message("Error updating user")) && b.users == old(b.users))
  {
    var found := b.LookupUser(Some(id));
    if found.CastError? {
      return Reply(500, Message("Error updating user"));
    }
    if found.Missing? {
      return Reply(404, Message("User not found"));
    }
    var u := found.doc;
    var v := u;
    if Truthy(role) {
      v := v.(role := role.value);
    }
    if permissions.Some? {
      v := v.(permissions := permissions.value);
    }
    if lockedUntil.Some? && lockedUntil.value != 0 {
      v := v.(lockedUntil := lockedUntil);
    }
    assert SettersApplied(b.users[u.id]);
    NoClashKeepingKeys(b.users, v);
    var err := b.SaveUser(v, None, 0);
    if err.Some? {
      return Reply(500, Message("Error updating user"));
    }
    reply := Reply(200, Message("User updated successfully"));
  }

  /** `DELETE /:userId` */
  method AdminDeleteUser(b: Backend, id: ObjectRef) returns (reply: Reply)
    requires b.Valid()
    modifies b`users
    ensures b.Valid()
    ensures match old(b.LookupUser(Some(id)))
      case CastError => reply == Reply(500, Message("Error deleting user")) && b.users == old(b.users)
      case Missing => reply == Reply(404, Message("User not found")) && b.users == old(b.users)
      case Found(u) => reply == Reply(200, Message("User deleted successfully")) && b.users == old(b.users) - {u.id}
  {
    var found := b.LookupUser(Some(id));
    if found.CastError? {
      return Reply(500, Message("Error deleting user"));
    }
    if found.Missing? {
      return Reply(404, Message("User not found"));
    }
    b.DeleteUser(found.doc.id);
    reply := Reply(200, Message("User deleted successfully"));
  }
}
