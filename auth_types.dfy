/** Values shared by every part of the authentication provider: the typed
    errors it raises, the records the directory store holds, the claims a
    token carries, and the credential cipher it delegates to. */
module AuthTypes {

  datatype Option<+T> = None | Some(value: T) {
    function GetOr(default: T): T {
      match this
      case Some(v) => v
      case None => default
    }
  }

  /** An `R2RException`: an HTTP-style status code and a message. */
  datatype AuthError = AuthError(status: int, message: string)

  datatype Result<+T> = Ok(value: T) | Err(error: AuthError)

  // Errors raised by the provider itself.
  const TokenInvalidated := AuthError(401, "Token has been invalidated")
  const InvalidOrExpiredToken := AuthError(401, "Invalid or expired token")
  const InvalidTokenClaims := AuthError(401, "Invalid token claims")
  const TokenExpired := AuthError(401, "Token has expired")
  const InvalidApiKeyFormat := AuthError(401, "Invalid API key format")
  const InvalidApiKey := AuthError(401, "Invalid API key")
  const InactiveAccount := AuthError(401, "User account is inactive")
  const CouldNotValidate := AuthError(401, "Could not validate credentials")
  const InactiveUser := AuthError(400, "Inactive user")
  const IncorrectCredentials := AuthError(401, "Incorrect email or password")
  const EmailNotVerified := AuthError(401, "Email not verified")
  const InvalidRefreshToken := AuthError(401, "Invalid refresh token")
  const IncorrectCurrentPassword := AuthError(400, "Incorrect current password")
  const InvalidResetToken := AuthError(400, "Invalid or expired reset token")

  // Errors raised by the directory store on the provider's behalf.
  const UserNotFound := AuthError(404, "User not found")
  const UserAlreadyExists := AuthError(400, "User with this email already exists")
  const InvalidVerificationCode := AuthError(400, "Invalid or expired verification code")

  // Success messages.
  const EmailVerified := "Email verified successfully"
  const PasswordChanged := "Password changed successfully"
  const ResetLinkSent := "If the email exists, a reset link has been sent"
  const PasswordReset := "Password reset successfully"
  const LoggedOut := "Logged out successfully"

  const AccessKind := "access"
  const RefreshKind := "refresh"

  type UserId = string

  datatype User = User(
    id: UserId,
    email: string,
    hashedPassword: string,
    isActive: bool,
    isVerified: bool,
    isSuperuser: bool,
    name: Option<string>,
    // Set only on the object `register` returns; the stored row keeps None,
    // and the live expiry sits in the verification-code table.
    verificationCodeExpiry: Option<int>)

  /** The claims the provider signs into a token: subject email, kind, expiry (seconds). */
  datatype Claims = Claims(sub: string, tokenType: string, exp: int)

  /** A payload as the cipher hands it back: any claim may be absent. */
  datatype Payload = Payload(sub: Option<string>, tokenType: Option<string>, exp: Option<int>)

  /** The claims of a token that passed every check (`TokenData`). It has the
      shape of `Claims` but is a different value: `Claims` is what the issuer
      asks the cipher to sign, `TokenData` is what `decode_token` vouches for
      after the blacklist, claim and expiry checks. */
  datatype TokenData = TokenData(email: string, tokenType: string, exp: int)

  datatype Token = Token(token: string, tokenType: string)

  datatype TokenPair = TokenPair(accessToken: Token, refreshToken: Token)

  /** A stored API key: `recordId` is the row's own id, `keyId` the public half
      of the key presented by clients; the raw secret is never stored. */
  datatype ApiKeyRecord = ApiKeyRecord(
    recordId: string, keyId: string, hashedKey: string, userId: UserId, name: Option<string>)

  /** What `create_user_api_key` hands back once: the composite key and its ids. */
  datatype ApiKeyIssued = ApiKeyIssued(apiKey: string, recordId: string, publicKey: string, name: string)

  /** A one-time code (email verification or password reset) and its expiry. */
  datatype CodeEntry = CodeEntry(code: string, expiry: int)

  /** A message handed to the notifier. */
  datatype Email =
    | VerificationEmail(to: string, code: string, firstName: string)
    | PasswordResetEmail(to: string, code: string, firstName: string)

  /** The credential cipher, left uninterpreted: any functions of these types.
      Being functions, its verdicts are deterministic; nothing else is assumed. */
  datatype Cipher = Cipher(
    sign: Claims -> string,
    verifyToken: string -> Option<Payload>,
    hashPassword: string -> string,
    verifyPassword: (string, string) -> bool,
    hashApiKey: string -> string,
    verifyApiKey: (string, string) -> bool)

  /** Lifetimes as configured (absent or zero means "use the default") and
      whether login requires a verified email. */
  datatype AuthConfig = AuthConfig(
    accessLifetimeMinutes: Option<int>,
    refreshLifetimeDays: Option<int>,
    requireEmailVerification: bool)

  /** The payload the cipher yields for a faithfully signed token of `c`. */
  function FullPayload(c: Claims): (p: Payload)
    ensures p.sub.Some? && p.tokenType.Some? && p.exp.Some?
  {
    Payload(Some(c.sub), Some(c.tokenType), Some(c.exp))
  }

  /** The one property of the cipher some lemmas rely on, stated for one claim
      set only: what it signs, it verifies back unchanged. */
  predicate SignsFaithfully(cipher: Cipher, c: Claims) {
    cipher.verifyToken(cipher.sign(c)) == Some(FullPayload(c))
  }
}
