/** `R2RAuthProvider` as a class over the store state it reads and writes:
    the token blacklist, the user table, the verification-code and reset-token
    tables, the API-key table, and the notifier's outbox. Randomness (new ids,
    codes, key material) and the clock arrive as parameters. */
module Provider {
  import opened AuthTypes
  import opened Text
  import opened Tokens
  import opened Directory
  import opened ApiKeys
  import opened Accounts

  const VerificationCodeLifetime := 24 * 3600
  const SentinelCode := "-1"
  const SentinelCodeLifetime := 366 * 10 * 3600
  const ResetTokenLifetime := 3600

  /** A user as the store creates it: active, unverified, unnamed. */
  function NewUser(id: UserId, email: string, hashedPassword: string, isSuperuser: bool): (u: User)
    ensures u.id == id && u.email == email && u.hashedPassword == hashedPassword && u.isSuperuser == isSuperuser
    ensures u.isActive && !u.isVerified && u.name.None? && u.verificationCodeExpiry.None?
  {
    User(id, email, hashedPassword, true, false, isSuperuser, None, None)
  }

  class AuthProvider {
    const cipher: Cipher
    const config: AuthConfig
    var blacklist: set<string>
    var users: map<UserId, User>
    var verificationCodes: map<UserId, CodeEntry>
    var resetTokens: map<UserId, CodeEntry>
    var apiKeys: map<string, ApiKeyRecord>
    var outbox: seq<Email>

    /** The store's integrity constraints: users well formed, every code,
        reset token and API key belongs to a stored user, API-key records sit
        under their public id and have distinct record ids. */
    ghost predicate Valid()
      reads this
    {
      UsersWellFormed(users) &&
      verificationCodes.Keys <= users.Keys &&
      resetTokens.Keys <= users.Keys &&
      KeysWellFormed(apiKeys) &&
      KeysOwned(apiKeys, users)
    }

    constructor (cipher: Cipher, config: AuthConfig)
      ensures Valid()
      ensures this.cipher == cipher && this.config == config
      ensures blacklist == {} && users == map[] && verificationCodes == map[] && resetTokens == map[]
      ensures apiKeys == map[] && outbox == []
    {
      this.cipher := cipher;
      this.config := config;
      blacklist := {};
      users := map[];
      verificationCodes := map[];
      resetTokens := map[];
      apiKeys := map[];
      outbox := [];
    }

    /** `register`: create the user (the store refuses a taken email), then
        either issue a 24-hour verification code and email it, or store the
        sentinel code "-1" and mark the user verified. The returned user is the
        one created, so in the second branch it still reads as unverified. */
    method Register(email: string, password: string, isSuperuser: bool, newId: UserId, code: string, now: int)
      returns (r: Result<User>)
      requires Valid()
      requires newId !in users
      modifies this`users, this`verificationCodes, this`outbox
      ensures Valid()
      ensures EmailTaken(old(users), email) ==>
                r == Err(UserAlreadyExists) && users == old(users) &&
                verificationCodes == old(verificationCodes) && outbox == old(outbox)
      ensures !EmailTaken(old(users), email) && config.requireEmailVerification ==>
                var u := NewUser(newId, email, cipher.hashPassword(password), isSuperuser);
                r == Ok(u.(verificationCodeExpiry := Some(now + VerificationCodeLifetime))) &&
                users == old(users)[newId := u] &&
                verificationCodes == old(verificationCodes)[newId := CodeEntry(code, now + VerificationCodeLifetime)] &&
                outbox == old(outbox) + [VerificationEmail(email, code, FirstName(None, email))]
      ensures !EmailTaken(old(users), email) && !config.requireEmailVerification ==>
                var u := NewUser(newId, email, cipher.hashPassword(password), isSuperuser);
                r == Ok(u) &&
                users == MarkVerified(old(users)[newId := u], newId) &&
                verificationCodes == old(verificationCodes)[newId := CodeEntry(SentinelCode, now + SentinelCodeLifetime)] &&
                outbox == old(outbox)
    {
      if EmailTaken(users, email) {
        r := Err(UserAlreadyExists);
        return;
      }
      var newUser := NewUser(newId, email, cipher.hashPassword(password), isSuperuser);
      AddUserKeepsWellFormed(users, newUser);
      KeysOwnedGrow(apiKeys, users, users[newId := newUser]);
      users := users[newId := newUser];
      if config.requireEmailVerification {
        var expiry := now + VerificationCodeLifetime;
        verificationCodes := verificationCodes[newId := CodeEntry(code, expiry)];
        newUser := newUser.(verificationCodeExpiry := Some(expiry));
        var firstName := FirstName(newUser.name, email);
        outbox := outbox + [VerificationEmail(newUser.email, code, firstName)];
      } else {
        verificationCodes := verificationCodes[newId := CodeEntry(SentinelCode, now + SentinelCodeLifetime)];
        users := MarkVerified(users, newId);
      }
      r := Ok(newUser);
    }

    /** `verify_email`: the user holding the live code becomes verified and
        the code is cleared; the email argument plays no part. */
    method VerifyEmail(email: string, code: string, now: int) returns (r: Result<string>)
      requires Valid()
      modifies this`users, this`verificationCodes
      ensures Valid()
      ensures !CodeResolves(old(verificationCodes), code, now) ==>
                r == Err(InvalidVerificationCode) &&
                users == old(users) && verificationCodes == old(verificationCodes)
      ensures CodeResolves(old(verificationCodes), code, now) ==>
                r == Ok(EmailVerified) &&
                verificationCodes == WithoutCode(old(verificationCodes), code) &&
                exists id :: Holds(old(verificationCodes), id, code, now) && users == MarkVerified(old(users), id)
    {
      if !CodeResolves(verificationCodes, code, now) {
        r := Err(InvalidVerificationCode);
        return;
      }
      var id :| id in verificationCodes && Holds(verificationCodes, id, code, now);
      users := MarkVerified(users, id);
      verificationCodes := WithoutCode(verificationCodes, code);
      r := Ok(EmailVerified);
    }

    /** `refresh_access_token`, which behaves as `Refresh` prescribes: the
        presented refresh token is revoked before the new pair is issued. */
    method RefreshAccessToken(refreshToken: string, now: int) returns (r: Result<TokenPair>)
      requires Valid()
      modifies this`blacklist
      ensures Valid()
      ensures RefreshOutcome(r, blacklist) == Refresh(cipher, config, old(blacklist), refreshToken, now)
      ensures r.Ok? ==> forall later :: DecodeToken(cipher, blacklist, refreshToken, later) == Err(TokenInvalidated)
    {
      var decoded := DecodeToken(cipher, blacklist, refreshToken, now);
      if decoded.Err? {
        r := Err(decoded.error);
        return;
      }
      if decoded.value.tokenType != RefreshKind {
        r := Err(InvalidRefreshToken);
        return;
      }
      blacklist := blacklist + {refreshToken};
      r := Ok(IssuePair(cipher, config, decoded.value.email, now));
    }

    /** `change_password`: the current password is checked against the hash
        carried by the caller's user object; on a mismatch nothing changes. */
    method ChangePassword(user: User, currentPassword: string, newPassword: string) returns (r: Result<string>)
      requires Valid()
      modifies this`users
      ensures Valid()
      ensures !cipher.verifyPassword(currentPassword, user.hashedPassword) ==>
                r == Err(IncorrectCurrentPassword) && users == old(users)
      ensures cipher.verifyPassword(currentPassword, user.hashedPassword) ==>
                r == Ok(PasswordChanged) &&
                users == SetPassword(old(users), user.id, cipher.hashPassword(newPassword))
    {
      if !cipher.verifyPassword(currentPassword, user.hashedPassword) {
        r := Err(IncorrectCurrentPassword);
        return;
      }
      users := SetPassword(users, user.id, cipher.hashPassword(newPassword));
      r := Ok(PasswordChanged);
    }

    /** `request_password_reset`: for a known email, store a one-hour reset
        token (superseding any earlier one) and email it; the reply is the same
        generic message whether or not the account exists. */
    method RequestPasswordReset(email: string, resetToken: string, now: int) returns (r: Result<string>)
      requires Valid()
      modifies this`resetTokens, this`outbox
      ensures Valid()
      ensures r == Ok(ResetLinkSent)
      ensures EmailTaken(users, email) ==>
                var u := UserByEmail(users, email).value;
                resetTokens == old(resetTokens)[u.id := CodeEntry(resetToken, now + ResetTokenLifetime)] &&
                outbox == old(outbox) + [PasswordResetEmail(email, resetToken, FirstName(u.name, email))]
      ensures !EmailTaken(users, email) ==> resetTokens == old(resetTokens) && outbox == old(outbox)
    {
      match UserByEmail(users, email)
      case Err(e) =>
        r := ResetFailureReply(e);
      case Ok(u) =>
        resetTokens := resetTokens[u.id := CodeEntry(resetToken, now + ResetTokenLifetime)];
        var firstName := FirstName(u.name, email);
        outbox := outbox + [PasswordResetEmail(email, resetToken, firstName)];
        r := Ok(ResetLinkSent);
    }

    /** `confirm_password_reset`: the user holding the live reset token gets
        the new password and loses the token. */
    method ConfirmPasswordReset(resetToken: string, newPassword: string, now: int) returns (r: Result<string>)
      requires Valid()
      modifies this`users, this`resetTokens
      ensures Valid()
      ensures !CodeResolves(old(resetTokens), resetToken, now) ==>
                r == Err(InvalidResetToken) && users == old(users) && resetTokens == old(resetTokens)
      ensures CodeResolves(old(resetTokens), resetToken, now) ==>
                r == Ok(PasswordReset) &&
                exists id :: Holds(old(resetTokens), id, resetToken, now) &&
                             users == SetPassword(old(users), id, cipher.hashPassword(newPassword)) &&
                             resetTokens == old(resetTokens) - {id}
    {
      if !CodeResolves(resetTokens, resetToken, now) {
        r := Err(InvalidResetToken);
        return;
      }
      var id :| id in resetTokens && Holds(resetTokens, id, resetToken, now);
      users := SetPassword(users, id, cipher.hashPassword(newPassword));
      resetTokens := resetTokens - {id};
      r := Ok(PasswordReset);
    }

    /** `logout`: revoke the token unconditionally; from then on it never
        decodes again. */
    method Logout(token: string) returns (r: string)
      requires Valid()
      modifies this`blacklist
      ensures Valid()
      ensures blacklist == old(blacklist) + {token}
      ensures r == LoggedOut
      ensures forall now :: DecodeToken(cipher, blacklist, token, now) == Err(TokenInvalidated)
    {
      blacklist := blacklist + {token};
      r := LoggedOut;
    }

    /** `create_user_api_key`: store the hash of the fresh secret under the
        fresh public id and hand out `keyId "." rawKey` once. */
    method CreateUserApiKey(userId: UserId, name: Option<string>, keyId: string, rawKey: string, recordId: string)
      returns (r: ApiKeyIssued)
      requires Valid()
      requires userId in users
      requires keyId !in apiKeys
      requires forall pk :: pk in apiKeys ==> apiKeys[pk].recordId != recordId
      modifies this`apiKeys
      ensures Valid()
      ensures apiKeys == old(apiKeys)[keyId := ApiKeyRecord(recordId, keyId, cipher.hashApiKey(rawKey), userId, name)]
      ensures r == ApiKeyIssued(CompositeKey(keyId, rawKey), recordId, keyId, name.GetOr(""))
      ensures '.' !in keyId && cipher.verifyApiKey(rawKey, cipher.hashApiKey(rawKey)) ==>
                AuthenticateApiKey(cipher, users, apiKeys, r.apiKey) ==
                (if users[userId].isActive then Ok(users[userId]) else Err(InactiveAccount))
    {
      var hashedKey := cipher.hashApiKey(rawKey);
      var record := ApiKeyRecord(recordId, keyId, hashedKey, userId, name);
      AddKeyKeepsWellFormed(apiKeys, record);
      apiKeys := apiKeys[keyId := record];
      r := ApiKeyIssued(CompositeKey(keyId, rawKey), recordId, keyId, name.GetOr(""));
      if '.' !in keyId && cipher.verifyApiKey(rawKey, hashedKey) {
        ApiKeyRoundTrip(cipher, users, apiKeys, keyId, rawKey);
      }
    }

    /** `list_user_api_keys`: the records the user owns, and no others. */
    method ListUserApiKeys(userId: UserId) returns (r: map<string, ApiKeyRecord>)
      ensures forall pk :: pk in r <==> pk in apiKeys && apiKeys[pk].userId == userId
      ensures forall pk :: pk in r ==> r[pk] == apiKeys[pk]
    {
      r := KeysOf(apiKeys, userId);
    }

    /** `delete_user_api_key`: true exactly when the caller owned the record;
        a record of another user is left alone, as if it did not exist. */
    method DeleteUserApiKey(userId: UserId, recordId: string) returns (deleted: bool)
      requires Valid()
      modifies this`apiKeys
      ensures Valid()
      ensures deleted <==> OwnsKey(old(apiKeys), userId, recordId)
      ensures apiKeys == DropKey(old(apiKeys), userId, recordId)
    {
      deleted := OwnsKey(apiKeys, userId, recordId);
      apiKeys := DropKey(apiKeys, userId, recordId);
    }

    /** `rename_api_key`: true exactly when the caller owned the record. */
    method RenameApiKey(userId: UserId, recordId: string, newName: string) returns (renamed: bool)
      requires Valid()
      modifies this`apiKeys
      ensures Valid()
      ensures renamed <==> OwnsKey(old(apiKeys), userId, recordId)
      ensures apiKeys == RenameKey(old(apiKeys), userId, recordId, newName)
    {
      renamed := OwnsKey(apiKeys, userId, recordId);
      apiKeys := RenameKey(apiKeys, userId, recordId, newName);
    }
  }
}
