/** The database the routes work on: the users and trainers collections, the audit
    log collection, and the outgoing mail. The methods here are the document
    operations the routes use (`findById`, `findOne({ email })`, `save`,
    `findByIdAndDelete`, `createAuditLog`, `sendMfaCode`) and the two login-attempt
    counters of the user model. */
module Store {
  import opened Wrappers
  import opened Text
  import opened Jwt
  import opened UserModel
  import opened MfaCode

  /** A trainer account. The Trainer schema is not part of this model; the fields are
      those the controller and the middleware read and write. */
  datatype Trainer = Trainer(
    id: Id,
    name: string,
    email: string,
    password: Option<PasswordHash>,
    role: string,
    isActive: bool,
    lockedUntil: Option<int>)

  /** One stored audit log document. */
  datatype AuditEntry = AuditEntry(
    userId: string,
    userEmail: string,
    action: string,
    details: string,
    status: string,
    timestamp: int)

  /** One MFA code handed to the mail transport. */
  datatype Mail = Mail(to: string, code: string)

  /** The outcome of `findById`: a string that is no ObjectId cannot be cast and makes
      the query throw. */
  datatype Lookup<T> = Found(doc: T) | Missing | CastError

  datatype SaveError = ValidationError | DuplicateKey

  const AUDIT_STATUSES: set<string> := {"success", "failure", "failed"}

  /** The text of an ObjectId (`_id.toString()`), modelled by the decimal digits of the
      id number. */
  function IdText(id: Id): string {
    Decimal(id)
  }

  lemma IdTextInjective(a: Id, b: Id)
    ensures IdText(a) == IdText(b) <==> a == b
  {
    DecimalRoundTrip(a);
    DecimalRoundTrip(b);
  }

  /** What every stored user satisfies besides the setters' form: schema-valid, the
      code fields paired and well formed, the counter and lock consistent. */
  predicate StoredUser(u: User) {
    SchemaValid(u, None) && ChallengeInvariant(u) && LockInvariant(u)
  }

  /** A record without a pending code and without failed attempts is stored exactly
      when the schema accepts it. */
  lemma FreshRecordStored(u: User)
    requires u.mfaCode.None? && u.mfaCodeExpires.None? && u.loginAttempts == 0
    ensures StoredUser(u) <==> SchemaValid(u, None)
  {
    assert ChallengeInvariant(u) && LockInvariant(u);
  }

  /** Clearing the code fields keeps a stored user stored and touches nothing else. */
  lemma ClearCodeStored(u: User)
    requires StoredUser(u)
    ensures StoredUser(ClearCode(u))
    ensures ClearCode(u).(mfaCode := u.mfaCode, mfaCodeExpires := u.mfaCodeExpires) == u
  {
    ChallengeInvariantKept(u, "100000", 0, 0);
  }

  /** Whether saving `u` would break a unique index of the users collection: another
      record with the same email, or with the same googleId (the googleId index is
      sparse, so records without one never clash). */
  predicate Clashes(users: map<Id, User>, u: User) {
    exists id :: id in users && id != u.id &&
      (users[id].email == u.email || (u.googleId.Some? && users[id].googleId == u.googleId))
  }

  predicate UniqueKeys(users: map<Id, User>) {
    forall a, b :: a in users && b in users && a != b ==>
      users[a].email != users[b].email &&
      (users[a].googleId.Some? ==> users[a].googleId != users[b].googleId)
  }

  /** Writing a record that clashes with no other keeps the keys unique. */
  lemma UniqueAfterWrite(users: map<Id, User>, u: User)
    requires UniqueKeys(users) && !Clashes(users, u)
    ensures UniqueKeys(users[u.id := u])
  {
    var m := users[u.id := u];
    forall a, b | a in m && b in m && a != b
      ensures m[a].email != m[b].email && (m[a].googleId.Some? ==> m[a].googleId != m[b].googleId)
    {
      if a == u.id {
        assert b in users && b != u.id;
      } else if b == u.id {
        assert a in users && a != u.id;
      }
    }
  }

  /** While the keys are unique, an email belongs to at most one record. */
  lemma EmailOwnerUnique(users: map<Id, User>, a: Id, b: Id)
    requires UniqueKeys(users) && a in users && b in users && users[a].email == users[b].email
    ensures a == b
  {
  }

  /** Stored emails are in the form the setters give them, so unique stored emails
      are unique up to letter case and surrounding white space: two addresses that
      differ only in those never belong to two records. */
  lemma UniqueUpToCase(users: map<Id, User>, a: Id, b: Id, e: string, f: string)
    requires UniqueKeys(users) && forall id :: id in users ==> SettersApplied(users[id])
    requires a in users && b in users && a != b
    requires NormalEmail(e) == NormalEmail(f)
    ensures users[a].email != NormalEmail(e) || users[b].email != NormalEmail(f)
  {
  }

  /** A stored record changed in fields other than its keys clashes with no other. */
  lemma NoClashKeepingKeys(users: map<Id, User>, u: User)
    requires UniqueKeys(users) && u.id in users
    requires u.email == users[u.id].email && u.googleId == users[u.id].googleId
    ensures !Clashes(users, u)
  {
  }

  /** `findById` on a collection. */
  function LookupIn<T>(docs: map<Id, T>, ref: Option<ObjectRef>): (r: Lookup<T>)
    ensures r.Found? <==> ref.Some? && ref.value.Oid? && ref.value.n in docs
    ensures r.CastError? <==> ref.Some? && ref.value.Name?
    ensures r.Found? ==> r.doc == docs[ref.value.n]
  {
    match ref
    case None => Missing
    case Some(Name(_)) => CastError
    case Some(Oid(n)) => if n in docs then Found(docs[n]) else Missing
  }

  /** The audit log schema: user id, user email and action present, status one of the
      enumeration. */
  predicate AuditEntryValid(e: AuditEntry) {
    e.userId != "" && e.userEmail != "" && e.action != "" && e.status in AUDIT_STATUSES
  }

  /** What `createAuditLog` adds to the collection: the entry, or nothing when the
      schema refuses it. */
  function AuditRecord(userId: string, userEmail: Option<string>, action: string, details: string,
                       status: string, now: int): (r: seq<AuditEntry>)
    ensures |r| <= 1
    ensures r != [] <==> userId != "" && userEmail.Some? && userEmail.value != "" && action != "" && status in AUDIT_STATUSES
    ensures r != [] ==> r[0] == AuditEntry(userId, userEmail.value, action, details, status, now)
  {
    var e := AuditEntry(userId, userEmail.GetOr(""), action, details, status, now);
    if AuditEntryValid(e) then [e] else []
  }

  /** The user `findOne({ email })` finds: the one whose stored email is the query
      address after the setters, if any (at most one while the keys are unique). */
  ghost function UserWithEmail(users: map<Id, User>, email: string): (r: Option<User>)
    requires forall id :: id in users ==> users[id].id == id
    ensures r.Some? ==> r.value.id in users && users[r.value.id] == r.value && r.value.email == NormalEmail(email)
    ensures r.None? <==> forall id :: id in users ==> users[id].email != NormalEmail(email)
  {
    UserWithStoredEmail(users, NormalEmail(email))
  }

  ghost function UserWithStoredEmail(users: map<Id, User>, stored: string): (r: Option<User>)
    requires forall id :: id in users ==> users[id].id == id
    ensures r.Some? ==> r.value.id in users && users[r.value.id] == r.value && r.value.email == stored
    ensures r.None? <==> forall id :: id in users ==> users[id].email != stored
  {
    if exists id :: id in users && users[id].email == stored then
      var id :| id in users && users[id].email == stored;
      Some(users[id])
    else None
  }

  /** The lookup ignores letter case and white space around the address: two queries
      with the same stored form find the same user. */
  lemma LookupIgnoresCase(users: map<Id, User>, e: string, f: string)
    requires forall id :: id in users ==> users[id].id == id
    requires NormalEmail(e) == NormalEmail(f)
    ensures UserWithEmail(users, e) == UserWithEmail(users, f)
  {
  }

  /** Every record is stored under its own id, below the next id to hand out; every
      user record is a stored one, with name and email in the setters' form; the
      unique keys are unique. */
  ghost predicate StoreInvariant(users: map<Id, User>, trainers: map<Id, Trainer>, nextId: Id) {
    && (forall id :: id in users ==> users[id].id == id && id < nextId && StoredUser(users[id]))
    && (forall id {:trigger SettersApplied(users[id])} :: id in users ==> SettersApplied(users[id]))
    && (forall id :: id in trainers ==> trainers[id].id == id && id < nextId)
    && UniqueKeys(users)
  }

  class Backend {
    var users: map<Id, User>
    var trainers: map<Id, Trainer>
    var auditLogs: seq<AuditEntry>
    /** The next ObjectId to hand out. */
    var nextId: nat
    /** The codes handed to the mail transport, in order. */
    ghost var outbox: seq<Mail>

    ghost predicate Valid()
      reads this`users, this`trainers, this`nextId
    {
      StoreInvariant(users, trainers, nextId)
    }

    constructor ()
      ensures Valid()
      ensures users == map[] && trainers == map[] && auditLogs == [] && nextId == 0 && outbox == []
    {
      users := map[];
      trainers := map[];
      auditLogs := [];
      nextId := 0;
      outbox := [];
    }

    function LookupUser(ref: Option<ObjectRef>): Lookup<User>
      reads this
    {
      LookupIn(users, ref)
    }

    function LookupTrainer(ref: Option<ObjectRef>): Lookup<Trainer>
      reads this
    {
      LookupIn(trainers, ref)
    }

    /** `User.findOne({ email })`: the filter's email goes through the setters first. */
    method FindUserByEmail(email: string) returns (r: Option<User>)
      requires Valid()
      ensures r.Some? ==> r.value.id in users && users[r.value.id] == r.value && r.value.email == NormalEmail(email)
      ensures r.None? <==> forall id :: id in users ==> users[id].email != NormalEmail(email)
      ensures r == UserWithEmail(users, email)
    {
      var stored := NormalEmail(email);
      if exists id :: id in users && users[id].email == stored {
        var id :| id in users && users[id].email == stored;
        r := Some(users[id]);
        EmailOwnerUnique(users, id, UserWithEmail(users, email).value.id);
      } else {
        r := None;
      }
    }

    /** `Trainer.findOne({ email })`: some trainer with that email. */
    method FindTrainerByEmail(email: string) returns (r: Option<Trainer>)
      requires Valid()
      ensures r.Some? ==> r.value.id in trainers && trainers[r.value.id] == r.value && r.value.email == email
      ensures r.None? <==> forall id :: id in trainers ==> trainers[id].email != email
    {
      if exists id :: id in trainers && trainers[id].email == email {
        var id :| id in trainers && trainers[id].email == email;
        r := Some(trainers[id]);
      } else {
        r := None;
      }
    }

    /** A fresh ObjectId for a document about to be created. */
    method NewId() returns (id: Id)
      requires Valid()
      modifies this`nextId
      ensures Valid()
      ensures id == old(nextId) && nextId == id + 1
      ensures id !in users && id !in trainers
    {
      id := nextId;
      nextId := nextId + 1;
    }

    /** `user.save()` for a record that is new or was loaded and changed: schema
        validation, then the unique indexes, then the pre-save hook, which hashes
        `pending` when a new plaintext password was assigned. The setters ran when
        the fields were assigned, so the record arrives in their form. */
    method SaveUser(u: User, pending: Option<string>, salt: nat) returns (err: Option<SaveError>)
      requires Valid() && u.id < nextId && SettersApplied(u) && ChallengeInvariant(u) && LockInvariant(u)
      modifies this`users
      ensures Valid()
      ensures err == None <==> SchemaValid(u, pending) && !Clashes(old(users), u)
      ensures err == Some(ValidationError) <==> !SchemaValid(u, pending)
      ensures users == if err.None? then old(users)[u.id := Hashed(u, pending, salt)] else old(users)
    {
      if !SchemaValid(u, pending) {
        err := Some(ValidationError);
      } else if Clashes(users, u) {
        err := Some(DuplicateKey);
      } else {
        err := None;
        var h := Hashed(u, pending, salt);
        assert StoredUser(h);
        UniqueAfterWrite(users, h);
        users := users[u.id := h];
      }
    }

    /** `user.save()` after a change that cannot fail validation or clash: only the
        MFA fields, the counters or the lock were touched on a stored record. */
    method PutUser(u: User)
      requires Valid() && u.id in users && StoredUser(u)
      requires u.(mfaEnabled := users[u.id].mfaEnabled, mfaCode := users[u.id].mfaCode,
                  mfaCodeExpires := users[u.id].mfaCodeExpires, loginAttempts := users[u.id].loginAttempts,
                  lockedUntil := users[u.id].lockedUntil) == users[u.id]
      modifies this`users
      ensures Valid()
      ensures users == old(users)[u.id := u]
    {
      assert SettersApplied(users[u.id]);
      users := users[u.id := u];
    }

    /** `findByIdAndDelete` / `deleteOne` on the users collection. */
    method DeleteUser(id: Id)
      requires Valid()
      modifies this`users
      ensures Valid()
      ensures users == old(users) - {id}
    {
      users := users - {id};
    }

    /** `trainer.save()`. */
    method PutTrainer(t: Trainer)
      requires Valid() && t.id < nextId
      modifies this`trainers
      ensures Valid()
      ensures trainers == old(trainers)[t.id := t]
    {
      trainers := trainers[t.id := t];
    }

    /** `Trainer.findByIdAndDelete`. */
    method DeleteTrainer(id: Id)
      requires Valid()
      modifies this`trainers
      ensures Valid()
      ensures trainers == old(trainers) - {id}
    {
      trainers := trainers - {id};
    }

    /** `createAuditLog(userId, userEmail, action, details, ip, agent, status)`: the
        document is stored when it passes the schema, and a failure to store it is
        logged and swallowed, never thrown. */
    method CreateAuditLog(userId: string, userEmail: Option<string>, action: string, details: string,
                          status: string, now: int)
      modifies this`auditLogs
      ensures auditLogs == old(auditLogs) + AuditRecord(userId, userEmail, action, details, status, now)
    {
      var e := AuditEntry(userId, userEmail.GetOr(""), action, details, status, now);
      if AuditEntryValid(e) {
        auditLogs := auditLogs + [e];
      }
    }

    /** `sendMfaCode(email, code)`: the transport's outcome is an input; a failure is
        rethrown to the route. */
    method SendMfaCode(to: string, code: string, delivered: bool) returns (ok: bool)
      modifies this`outbox
      ensures ok == delivered
      ensures outbox == old(outbox) + (if delivered then [Mail(to, code)] else [])
    {
      ok := delivered;
      if delivered {
        outbox := outbox + [Mail(to, code)];
      }
    }

    /** `user.incrementLoginAttempts()`. */
    method IncrementLoginAttempts(id: Id, now: int)
      requires Valid() && id in users
      modifies this`users
      ensures Valid()
      ensures users == old(users)[id := AfterFailedAttempt(old(users)[id], now)]
    {
      var u := users[id];
      LockInvariantPreserved(u, now);
      PutUser(AfterFailedAttempt(u, now));
    }

    /** `user.resetLoginAttempts()`. */
    method ResetLoginAttempts(id: Id)
      requires Valid() && id in users
      modifies this`users
      ensures Valid()
      ensures users == old(users)[id := AfterReset(old(users)[id])]
    {
      var u := users[id];
      LockInvariantPreserved(u, 0);
      PutUser(AfterReset(u));
    }
  }
}
