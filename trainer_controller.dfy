/** The trainer controller: create, update and delete by an administrator, the
    trainer login decision chain, and the trainer's own password change.

    The controller binds `const Trainer = require('../models/Trainer')`, while
    `middleware/auth.js` binds `const { Trainer } = require('../models/Trainer')`, and
    every other model file exports its model as a property (`{ User }`, `{ AuditLog }`,
    `{ ErrorLog }`, `{ Report }`). Under that convention the controller's `Trainer` is
    the export object: `Trainer.findOne`, `Trainer.findById` and
    `Trainer.findByIdAndDelete` are undefined and calling them throws a `TypeError`
    inside the handler's `try`. The `...AsWritten` methods model that binding; the
    other handlers model the evidently intended `const { Trainer } = ...`. */
module TrainerController {
  import opened Wrappers
  import opened Jwt
  import opened UserModel
  import opened Store
  import opened Http
  import opened AuthMiddleware

  const TRAINER_SESSION_LIFETIME: nat := 24 * HOUR
  const INVALID_LOGIN: Reply := Reply(401, Message("Invalid email or password"))
  const DEACTIVATED: Reply := Reply(401, Message("Account is deactivated"))
  const TRAINER_NOT_FOUND: Reply := Reply(404, Message("Trainer not found"))

  /** The stored form of a password assigned to a trainer: hashed by the save when it
      is a string, absent otherwise. */
  function TrainerPassword(plain: Option<string>, salt: nat): (r: Option<PasswordHash>)
    ensures r.Some? <==> plain.Some?
    ensures plain.Some? ==> Compare(plain, r) == Ok(true)
  {
    if plain.Some? then Some(Bcrypt(plain.value, salt)) else None
  }

  /** The claims of a trainer session: `{ id, role }`, with no `userId`. */
  function TrainerClaims(t: Trainer): Claims {
    Claims(None, Some(Oid(t.id)), Some(t.role), None, None, None)
  }

  /** `loginTrainer` once `Trainer.findOne({ email })` has answered `found`. */
  function TrainerLogin(found: Option<Trainer>, password: Option<string>, now: int): Reply {
    match found
    case None => INVALID_LOGIN
    case Some(t) =>
      if !t.isActive then DEACTIVATED
      else
        match Compare(password, t.password)
        case Err(_) => Reply(500, Message("Error during login"))
        case Ok(matches) =>
          if !matches then INVALID_LOGIN
          else Reply(200, Session(Sign(TrainerClaims(t), now, TRAINER_SESSION_LIFETIME)))
  }

  /** A login succeeds exactly for an active trainer whose password verifies, with a
      24-hour token carrying the trainer's id and role. An unknown email and a wrong
      password get the same answer, and a deactivated account is refused whatever
      password is given. */
  lemma TrainerLoginOutcomes(found: Option<Trainer>, password: Option<string>, other: Option<string>, now: int)
    ensures TrainerLogin(found, password, now).status == 200 <==>
      found.Some? && found.value.isActive && Compare(password, found.value.password) == Ok(true)
    ensures TrainerLogin(found, password, now).status == 200 ==>
      TrainerLogin(found, password, now).body == Session(Signed(TrainerClaims(found.value), WholeSeconds(now) + TRAINER_SESSION_LIFETIME))
    ensures found.Some? && found.value.isActive && Compare(password, found.value.password) == Ok(false) ==>
      TrainerLogin(found, password, now) == TrainerLogin(None, other, now)
    ensures found.Some? && !found.value.isActive ==>
      TrainerLogin(found, password, now) == DEACTIVATED == TrainerLogin(found, other, now)
  {
  }

  /** The session a trainer login hands out lets no request through
      `authenticateToken`: its claims name no `userId`, so every protected route
      answers 404. */
  lemma TrainerSessionRefused(t: Trainer, password: Option<string>, issued: int, now: int, header: Option<string>,
                              decode: string -> Token, users: map<Id, User>, trainers: map<Id, Trainer>)
    requires TrainerLogin(Some(t), password, issued).status == 200
    requires BearerToken(header).Some?
    requires decode(BearerToken(header).value) == TrainerLogin(Some(t), password, issued).body.token
    requires now < WholeSeconds(issued) + TRAINER_SESSION_LIFETIME as int
    requires t.role == "trainer"
    ensures AuthenticateToken(header, decode, users, trainers, now) == Refuse(NOT_FOUND)
  {
    WholeSecondLifetime(TrainerClaims(t), issued, TRAINER_SESSION_LIFETIME, now);
    TrainerTokensAreRefused(header, decode, users, trainers, now, t.id);
  }

  // ---------------------------------------------------------------- as written

  /** The handlers that reach the model, and the message of each one's `catch`. */
  datatype Handler = CreateHandler | UpdateHandler | DeleteHandler | LoginHandler | PasswordHandler

  function CatchReply(h: Handler): Reply {
    Reply(500, Message(match h
      case CreateHandler => "Error creating trainer"
      case UpdateHandler => "Error updating trainer"
      case DeleteHandler => "Error deleting trainer"
      case LoginHandler => "Error during login"
      case PasswordHandler => "Error updating password"))
  }

  /** `createTrainer` as written: `Trainer.findOne` throws before anything is read or
      written. */
  method CreateTrainerAsWritten(b: Backend, name: Option<string>, email: string, password: Option<string>, salt: nat)
    returns (reply: Reply)
    ensures reply.status == 500 && reply == CatchReply(CreateHandler)
  {
    reply := CatchReply(CreateHandler);
  }

  /** `loginTrainer` as written: `Trainer.findOne` throws. */
  method LoginTrainerAsWritten(b: Backend, email: string, password: Option<string>, now: int) returns (reply: Reply)
    ensures reply.status == 500 && reply == CatchReply(LoginHandler)
  {
    reply := CatchReply(LoginHandler);
  }

  /** `updateTrainer` as written: `Trainer.findById` throws. */
  method UpdateTrainerAsWritten(b: Backend, id: ObjectRef, name: Option<string>, email: Option<string>,
                                isActive: Option<bool>) returns (reply: Reply)
    ensures reply.status == 500 && reply == CatchReply(UpdateHandler)
  {
    reply := CatchReply(UpdateHandler);
  }

  /** `deleteTrainer` as written: `Trainer.findByIdAndDelete` throws. */
  method DeleteTrainerAsWritten(b: Backend, id: ObjectRef) returns (reply: Reply)
    ensures reply.status == 500 && reply == CatchReply(DeleteHandler)
  {
    reply := CatchReply(DeleteHandler);
  }

  /** `updateTrainerPassword` as written: `Trainer.findById` throws. */
  method UpdateTrainerPasswordAsWritten(b: Backend, user: Claims, currentPassword: Option<string>,
                                        newPassword: Option<string>, salt: nat) returns (reply: Reply)
    ensures reply.status == 500 && reply == CatchReply(PasswordHandler)
  {
    reply := CatchReply(PasswordHandler);
  }

  /** As written no trainer can log in: an active trainer with the right password,
      whom the intended binding lets in, gets the login handler's 500, and so does
      every other request; no caught reply is one the intended handlers give on a
      found, active trainer. */
  lemma AsWrittenRefusesEveryLogin(t: Trainer, password: Option<string>, now: int)
    requires t.isActive && Compare(password, t.password) == Ok(true)
    ensures TrainerLogin(Some(t), password, now).status == 200
    ensures CatchReply(LoginHandler).status == 500
    ensures forall h :: CatchReply(h) != TrainerLogin(Some(t), password, now)
  {
  }

  // ---------------------------------------------------------------- intended binding

  /** No two trainers share an email. */
  predicate DistinctTrainerEmails(trainers: map<Id, Trainer>) {
    forall a, b :: a in trainers && b in trainers && a != b ==> trainers[a].email != trainers[b].email
  }

  /** `createTrainer`: an email already present is refused; otherwise a new active
      trainer is stored with the hashed password. The pre-check alone keeps trainer
      emails distinct. */
  method CreateTrainer(b: Backend, name: Option<string>, email: string, password: Option<string>, salt: nat)
    returns (reply: Reply)
    requires b.Valid()
    modifies b`trainers, b`nextId
    ensures b.Valid()
    ensures (exists id :: id in old(b.trainers) && old(b.trainers)[id].email == email) ==>
      reply == Reply(400, Message("Trainer with this email already exists")) && b.trainers == old(b.trainers)
    ensures (forall id :: id in old(b.trainers) ==> old(b.trainers)[id].email != email) ==>
      reply == Reply(201, Message("Trainer created successfully")) &&
      old(b.nextId) !in old(b.trainers) &&
      b.trainers == old(b.trainers)[old(b.nextId) :=
        Trainer(old(b.nextId), name.GetOr(""), email, TrainerPassword(password, salt), "trainer", true, None)]
    ensures DistinctTrainerEmails(old(b.trainers)) ==> DistinctTrainerEmails(b.trainers)
  {
    var existing := b.FindTrainerByEmail(email);
    if existing.Some? {
      return Reply(400, Message("Trainer with this email already exists"));
    }
    var id := b.NewId();
    b.PutTrainer(Trainer(id, name.GetOr(""), email, TrainerPassword(password, salt), "trainer", true, None));
    reply := Reply(201, Message("Trainer created successfully"));
  }

  /** `loginTrainer`: the decision is taken on some trainer holding the email. */
  method LoginTrainer(b: Backend, email: string, password: Option<string>, now: int) returns (reply: Reply)
    requires b.Valid()
    ensures (forall id :: id in b.trainers ==> b.trainers[id].email != email) ==> reply == TrainerLogin(None, password, now)
    ensures (exists id :: id in b.trainers && b.trainers[id].email == email) ==>
      exists id :: id in b.trainers && b.trainers[id].email == email && reply == TrainerLogin(Some(b.trainers[id]), password, now)
  {
    var found := b.FindTrainerByEmail(email);
    reply := TrainerLogin(found, password, now);
  }

  /** `updateTrainer`: name and email are overwritten when truthy, `isActive` when it
      is a boolean; nothing else changes. */
  method UpdateTrainer(b: Backend, id: ObjectRef, name: Option<string>, email: Option<string>, isActive: Option<bool>)
    returns (reply: Reply)
    requires b.Valid()
    modifies b`trainers
    ensures b.Valid()
    ensures match old(b.LookupTrainer(Some(id)))
      case CastError => reply == Reply(500, Message("Error updating trainer")) && b.trainers == old(b.trainers)
      case Missing => reply == TRAINER_NOT_FOUND && b.trainers == old(b.trainers)
      case Found(t) =>
        reply == Reply(200, Message("Trainer updated successfully")) &&
        b.trainers == old(b.trainers)[t.id := t.(name := if Truthy(name) then name.value else t.name,
                                                 email := if Truthy(email) then email.value else t.email,
                                                 isActive := isActive.GetOr(t.isActive))]
  {
    var found := b.LookupTrainer(Some(id));
    if found.CastError? {
      return Reply(500, Message("Error updating trainer"));
    }
    if found.Missing? {
      return TRAINER_NOT_FOUND;
    }
    var t := found.doc;
    if Truthy(name) {
      t := t.(name := name.value);
    }
    if Truthy(email) {
      t := t.(email := email.value);
    }
    if isActive.Some? {
      t := t.(isActive := isActive.value);
    }
    b.PutTrainer(t);
    reply := Reply(200, Message("Trainer updated successfully"));
  }

  /** `deleteTrainer` */
  method DeleteTrainer(b: Backend, id: ObjectRef) returns (reply: Reply)
    requires b.Valid()
    modifies b`trainers
    ensures b.Valid()
    ensures match old(b.LookupTrainer(Some(id)))
      case CastError => reply == Reply(500, Message("Error deleting trainer")) && b.trainers == old(b.trainers)
      case Missing => reply == TRAINER_NOT_FOUND && b.trainers == old(b.trainers)
      case Found(t) => reply == Reply(200, Message("Trainer deleted successfully")) && b.trainers == old(b.trainers) - {t.id}
  {
    var found := b.LookupTrainer(Some(id));
    if found.CastError? {
      return Reply(500, Message("Error deleting trainer"));
    }
    if found.Missing? {
      return TRAINER_NOT_FOUND;
    }
    b.DeleteTrainer(found.doc.id);
    reply := Reply(200, Message("Trainer deleted successfully"));
  }

  /** `updateTrainerPassword`: the trainer is the one the `id` claim names; the
      password changes only after the current one verifies, and the new one then
      verifies against the stored hash. */
  method UpdateTrainerPassword(b: Backend, user: Claims, currentPassword: Option<string>, newPassword: Option<string>,
                               salt: nat) returns (reply: Reply)
    requires b.Valid()
    modifies b`trainers
    ensures b.Valid()
    ensures match old(b.LookupTrainer(user.id))
      case CastError => reply == Reply(500, Message("Error updating password")) && b.trainers == old(b.trainers)
      case Missing => reply == TRAINER_NOT_FOUND && b.trainers == old(b.trainers)
      case Found(t) =>
        (Compare(currentPassword, t.password).Err? ==>
          reply == Reply(500, Message("Error updating password")) && b.trainers == old(b.trainers)) &&
        (Compare(currentPassword, t.password) == Ok(false) ==>
          reply == Reply(401, Message("Current password is incorrect")) && b.trainers == old(b.trainers)) &&
        (Compare(currentPassword, t.password) == Ok(true) ==>
          reply == Reply(200, Message("Password updated successfully")) &&
          b.trainers == old(b.trainers)[t.id := t.(password := TrainerPassword(newPassword, salt))] &&
          (newPassword.Some? ==> Compare(newPassword, b.trainers[t.id].password) == Ok(true)))
  {
    var found := b.LookupTrainer(user.id);
    if found.CastError? {
      return Reply(500, Message("Error updating password"));
    }
    if found.Missing? {
      return TRAINER_NOT_FOUND;
    }
    var t := found.doc;
    var matches := Compare(currentPassword, t.password);
    if matches.Err? {
      return Reply(500, Message("Error updating password"));
    }
    if !matches.value {
      return Reply(401, Message("Current password is incorrect"));
    }
    b.PutTrainer(t.(password := TrainerPassword(newPassword, salt)));
    reply := Reply(200, Message("Password updated successfully"));
  }
}
