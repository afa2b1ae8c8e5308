/** The replies the route handlers send: a status code and the part of the JSON body
    the model keeps (the message, the error code, the tokens and expiry instants). */
module Http {
  import opened Jwt

  /** Where the OAuth callback sends the browser. */
  datatype Page = VerifyMfaPage(tempToken: Token) | AuthSuccessPage(token: Token) | LoginFailedPage

  datatype Body =
    | Message(message: string)
    /** `{ message, code }` with one of the MFA error codes. */
    | Coded(message: string, code: string)
    /** The refusal of a locked account, with the instant the lock ends. */
    | Locked(message: string, lockedUntil: int)
    /** `{ success, token, user }` */
    | Session(token: Token)
    /** `{ mfaRequired: true, tempToken, expiresAt, ... }` */
    | MfaChallenge(tempToken: Token, expiresAt: int)
    /** `{ message, expiresAt }` after a code was mailed. */
    | CodeSent(message: string, expiresAt: int)
    /** `{ message, tempToken, expiresAt }` after a code was resent. */
    | CodeResent(tempToken: Token, expiresAt: int)
    | MfaStatus(mfaEnabled: bool)
    | Redirect(page: Page)
    /** `{ message: error.message }` of a Mongoose validation error. */
    | ValidationFailed

  datatype Reply = Reply(status: nat, body: Body)

  /** The result of a middleware: pass control on, or answer. */
  datatype Gate = Next | Stop(reply: Reply)
}
