/** The account decisions that only read the store: `login`, and the reply
    `request_password_reset` gives when its lookup fails. */
module Accounts {
  import opened AuthTypes
  import opened Tokens
  import opened Directory

  /** `login`: load the user by email, check the password, then (only when
      the configuration asks for it) the verified flag, then issue a pair. */
  function Login(cipher: Cipher, cfg: AuthConfig, users: map<UserId, User>, email: string, password: string, now: int)
    : (r: Result<TokenPair>)
    requires UsersWellFormed(users)
    ensures !EmailTaken(users, email) ==> r == Err(UserNotFound)
    ensures r.Ok? ==>
              var u := UserByEmail(users, email).value;
              cipher.verifyPassword(password, u.hashedPassword) &&
              (u.isVerified || !cfg.requireEmailVerification) &&
              r.value == IssuePair(cipher, cfg, email, now)
    ensures r.Err? ==> r.error in {UserNotFound, IncorrectCredentials, EmailNotVerified}
  {
    match UserByEmail(users, email)
    case Err(e) => Err(e)
    case Ok(u) =>
      if !cipher.verifyPassword(password, u.hashedPassword) then Err(IncorrectCredentials)
      else if !u.isVerified && cfg.requireEmailVerification then Err(EmailNotVerified)
      else Ok(IssuePair(cipher, cfg, u.email, now))
  }

  /** A wrong password is reported as such whatever the verified flag and the
      configuration say: the password is checked first. */
  lemma LoginPasswordFirst(cipher: Cipher, cfg: AuthConfig, users: map<UserId, User>, id: UserId, password: string,
                           verified: bool, now: int)
    requires UsersWellFormed(users) && id in users
    requires !cipher.verifyPassword(password, users[id].hashedPassword)
    ensures Login(cipher, cfg, users, users[id].email, password, now) == Err(IncorrectCredentials)
    ensures var flipped := users[id := users[id].(isVerified := verified)];
            UsersWellFormed(flipped) &&
            Login(cipher, cfg, flipped, users[id].email, password, now) == Err(IncorrectCredentials)
  {
    var flipped := users[id := users[id].(isVerified := verified)];
    assert UserByEmail(users, users[id].email) == Ok(users[id]);
    assert UsersWellFormed(flipped) by {
      forall i, j | i in flipped && j in flipped && flipped[i].email == flipped[j].email
        ensures i == j
      {
        assert flipped[i].email == users[i].email && flipped[j].email == users[j].email;
      }
    }
    assert flipped[id].email == users[id].email;
    assert UserByEmail(flipped, users[id].email) == Ok(flipped[id]);
  }

  /** With the right password, login fails as unverified exactly when the user
      is unverified and verification is required, and succeeds otherwise. */
  lemma LoginVerificationGate(cipher: Cipher, cfg: AuthConfig, users: map<UserId, User>, id: UserId, password: string, now: int)
    requires UsersWellFormed(users) && id in users
    requires cipher.verifyPassword(password, users[id].hashedPassword)
    ensures var r := Login(cipher, cfg, users, users[id].email, password, now);
            (r == Err(EmailNotVerified) <==> !users[id].isVerified && cfg.requireEmailVerification) &&
            (r.Err? ==> r == Err(EmailNotVerified))
  {
    assert UserByEmail(users, users[id].email) == Ok(users[id]);
  }

  /** The pair a login issues decodes, within each lifetime and while not
      revoked, to the login email and the right kinds. */
  lemma LoginTokensDecode(cipher: Cipher, cfg: AuthConfig, users: map<UserId, User>, email: string,
                                             password: string, issued: int, blacklist: set<string>, now: int)
    requires UsersWellFormed(users)
    requires Login(cipher, cfg, users, email, password, issued).Ok?
    requires var pair := Login(cipher, cfg, users, email, password, issued).value;
             pair.accessToken.token !in blacklist && pair.refreshToken.token !in blacklist
    requires SignsFaithfully(cipher, Claims(email, AccessKind, issued + AccessLifetime(cfg)))
    requires SignsFaithfully(cipher, Claims(email, RefreshKind, issued + RefreshLifetime(cfg)))
    requires now <= issued + AccessLifetime(cfg) && now <= issued + RefreshLifetime(cfg)
    ensures var pair := Login(cipher, cfg, users, email, password, issued).value;
            DecodeToken(cipher, blacklist, pair.accessToken.token, now).Ok? &&
            DecodeToken(cipher, blacklist, pair.accessToken.token, now).value.email == email &&
            DecodeToken(cipher, blacklist, pair.accessToken.token, now).value.tokenType == AccessKind &&
            DecodeToken(cipher, blacklist, pair.refreshToken.token, now).Ok? &&
            DecodeToken(cipher, blacklist, pair.refreshToken.token, now).value.email == email &&
            DecodeToken(cipher, blacklist, pair.refreshToken.token, now).value.tokenType == RefreshKind
  {
    IssuedPairDecodes(cipher, cfg, blacklist, email, issued, now);
  }

  /** The `except` clause of `request_password_reset`: a 404 from the lookup
      becomes the generic reply, any other error is raised again. */
  function ResetFailureReply(e: AuthError): (r: Result<string>)
    ensures r.Ok? <==> e.status == 404
    ensures r.Ok? ==> r.value == ResetLinkSent
    ensures r.Err? ==> r.error == e
  {
    if e.status == 404 then Ok(ResetLinkSent) else Err(e)
  }
}
