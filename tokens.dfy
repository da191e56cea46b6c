/** Token issuance, verification and refresh rotation. The revocation list
    (blacklist) is a set of token strings that only ever grows. */
module Tokens {
  import opened AuthTypes

  const DefaultAccessLifetimeMinutes := 3600
  const DefaultRefreshLifetimeDays := 7
  const SecondsPerMinute := 60
  const SecondsPerDay := 86400

  /** Access-token lifetime in seconds: the configured minutes, or the default
      when the setting is absent or zero (Python's `or` treats 0 as unset). */
  function AccessLifetime(cfg: AuthConfig): (r: int)
    ensures r != 0
    ensures cfg.accessLifetimeMinutes.Some? && cfg.accessLifetimeMinutes.value != 0 ==>
              r == cfg.accessLifetimeMinutes.value * SecondsPerMinute
    ensures cfg.accessLifetimeMinutes.GetOr(0) == 0 ==> r == DefaultAccessLifetimeMinutes * SecondsPerMinute
  {
    var minutes := cfg.accessLifetimeMinutes.GetOr(0);
    (if minutes == 0 then DefaultAccessLifetimeMinutes else minutes) * SecondsPerMinute
  }

  /** Refresh-token lifetime in seconds, with the same fallback. */
  function RefreshLifetime(cfg: AuthConfig): (r: int)
    ensures r != 0
    ensures cfg.refreshLifetimeDays.Some? && cfg.refreshLifetimeDays.value != 0 ==>
              r == cfg.refreshLifetimeDays.value * SecondsPerDay
    ensures cfg.refreshLifetimeDays.GetOr(0) == 0 ==> r == DefaultRefreshLifetimeDays * SecondsPerDay
  {
    var days := cfg.refreshLifetimeDays.GetOr(0);
    (if days == 0 then DefaultRefreshLifetimeDays else days) * SecondsPerDay
  }

  /** `create_access_token` / `create_refresh_token` for subject `sub`
      issued at `now`. */
  function IssuePair(cipher: Cipher, cfg: AuthConfig, sub: string, now: int): (r: TokenPair)
    ensures r.accessToken.tokenType == AccessKind && r.refreshToken.tokenType == RefreshKind
    ensures r.accessToken.token == cipher.sign(Claims(sub, AccessKind, now + AccessLifetime(cfg)))
    ensures r.refreshToken.token == cipher.sign(Claims(sub, RefreshKind, now + RefreshLifetime(cfg)))
  {
    TokenPair(
      Token(cipher.sign(Claims(sub, AccessKind, now + AccessLifetime(cfg))), AccessKind),
      Token(cipher.sign(Claims(sub, RefreshKind, now + RefreshLifetime(cfg))), RefreshKind))
  }

  /** `decode_token`: the blacklist, then the cipher's verdict, then the
      presence of every claim, then expiry strictly before `now`. */
  function DecodeToken(cipher: Cipher, blacklist: set<string>, token: string, now: int): (r: Result<TokenData>)
    ensures token in blacklist ==> r == Err(TokenInvalidated)
    ensures token !in blacklist && cipher.verifyToken(token).None? ==> r == Err(InvalidOrExpiredToken)
    ensures r.Ok? ==>
              token !in blacklist &&
              cipher.verifyToken(token) == Some(FullPayload(Claims(r.value.email, r.value.tokenType, r.value.exp))) &&
              now <= r.value.exp
    ensures r.Err? ==> r.error in {TokenInvalidated, InvalidOrExpiredToken, InvalidTokenClaims, TokenExpired}
  {
    if token in blacklist then Err(TokenInvalidated)
    else
      match cipher.verifyToken(token)
      case None => Err(InvalidOrExpiredToken)
      case Some(p) =>
        if p.sub.None? || p.tokenType.None? || p.exp.None? then Err(InvalidTokenClaims)
        else if p.exp.value < now then Err(TokenExpired)
        else Ok(TokenData(p.sub.value, p.tokenType.value, p.exp.value))
  }

  /** A revoked token is refused without regard to the cipher or the clock. */
  lemma DecodeBlacklistFirst(c1: Cipher, c2: Cipher, blacklist: set<string>, token: string, now1: int, now2: int)
    requires token in blacklist
    ensures DecodeToken(c1, blacklist, token, now1) == DecodeToken(c2, blacklist, token, now2) == Err(TokenInvalidated)
  {
  }

  /** With a verified payload, a missing claim fails before expiry is looked
      at; a complete payload is accepted up to and including its expiry
      instant and refused strictly after it. */
  lemma DecodeClaimsThenExpiry(cipher: Cipher, blacklist: set<string>, token: string, now: int)
    requires token !in blacklist && cipher.verifyToken(token).Some?
    ensures var p := cipher.verifyToken(token).value;
            (p.sub.None? || p.tokenType.None? || p.exp.None? ==>
               DecodeToken(cipher, blacklist, token, now) == Err(InvalidTokenClaims)) &&
            (p.sub.Some? && p.tokenType.Some? && p.exp.Some? ==>
               (DecodeToken(cipher, blacklist, token, now) == Err(TokenExpired) <==> p.exp.value < now) &&
               (now <= p.exp.value ==>
                  DecodeToken(cipher, blacklist, token, now) == Ok(TokenData(p.sub.value, p.tokenType.value, p.exp.value))))
  {
  }

  /** A token the cipher signed faithfully, and that is not revoked, decodes to
      exactly the claims it was issued with until its expiry has passed. */
  lemma DecodeIssued(cipher: Cipher, blacklist: set<string>, c: Claims, now: int)
    requires SignsFaithfully(cipher, c) && cipher.sign(c) !in blacklist
    ensures now <= c.exp ==> DecodeToken(cipher, blacklist, cipher.sign(c), now) == Ok(TokenData(c.sub, c.tokenType, c.exp))
    ensures c.exp < now ==> DecodeToken(cipher, blacklist, cipher.sign(c), now) == Err(TokenExpired)
  {
  }

  /** A freshly issued pair decodes, within each token's lifetime, to its
      subject and its kind. */
  lemma IssuedPairDecodes(cipher: Cipher, cfg: AuthConfig, blacklist: set<string>, sub: string, issued: int, now: int)
    requires var pair := IssuePair(cipher, cfg, sub, issued);
             pair.accessToken.token !in blacklist && pair.refreshToken.token !in blacklist
    requires SignsFaithfully(cipher, Claims(sub, AccessKind, issued + AccessLifetime(cfg)))
    requires SignsFaithfully(cipher, Claims(sub, RefreshKind, issued + RefreshLifetime(cfg)))
    ensures var pair := IssuePair(cipher, cfg, sub, issued);
            (now <= issued + AccessLifetime(cfg) ==>
               DecodeToken(cipher, blacklist, pair.accessToken.token, now) ==
               Ok(TokenData(sub, AccessKind, issued + AccessLifetime(cfg)))) &&
            (now <= issued + RefreshLifetime(cfg) ==>
               DecodeToken(cipher, blacklist, pair.refreshToken.token, now) ==
               Ok(TokenData(sub, RefreshKind, issued + RefreshLifetime(cfg))))
  {
    DecodeIssued(cipher, blacklist, Claims(sub, AccessKind, issued + AccessLifetime(cfg)), now);
    DecodeIssued(cipher, blacklist, Claims(sub, RefreshKind, issued + RefreshLifetime(cfg)), now);
  }

  /** The reply of a refresh and the blacklist it leaves behind. */
  datatype RefreshOutcome = RefreshOutcome(reply: Result<TokenPair>, blacklist: set<string>)

  /** `refresh_access_token`: decode, insist on a refresh token, revoke it,
      then issue a new pair for the same subject. */
  function Refresh(cipher: Cipher, cfg: AuthConfig, blacklist: set<string>, token: string, now: int): (r: RefreshOutcome)
    ensures blacklist <= r.blacklist
    ensures r.reply.Err? ==> r.blacklist == blacklist
    ensures r.reply.Ok? ==>
              token !in blacklist && r.blacklist == blacklist + {token} &&
              var d := DecodeToken(cipher, blacklist, token, now);
              d.Ok? && d.value.tokenType == RefreshKind && r.reply.value == IssuePair(cipher, cfg, d.value.email, now)
    ensures var d := DecodeToken(cipher, blacklist, token, now);
            (d.Err? ==> r.reply == Err(d.error)) &&
            (d.Ok? && d.value.tokenType == RefreshKind ==> r.reply.Ok?)
  {
    match DecodeToken(cipher, blacklist, token, now)
    case Err(e) => RefreshOutcome(Err(e), blacklist)
    case Ok(d) =>
      if d.tokenType != RefreshKind then RefreshOutcome(Err(InvalidRefreshToken), blacklist)
      else RefreshOutcome(Ok(IssuePair(cipher, cfg, d.email, now)), blacklist + {token})
  }

  /** The refresh token of an issued pair, presented unrevoked within its
      lifetime, is exchanged: it is revoked and a new pair for the same subject
      is issued. */
  lemma RefreshIssued(cipher: Cipher, cfg: AuthConfig, blacklist: set<string>, sub: string,
                                         issued: int, now: int)
    requires var c := Claims(sub, RefreshKind, issued + RefreshLifetime(cfg));
             SignsFaithfully(cipher, c) && cipher.sign(c) !in blacklist
    requires now <= issued + RefreshLifetime(cfg)
    ensures var token := IssuePair(cipher, cfg, sub, issued).refreshToken.token;
            Refresh(cipher, cfg, blacklist, token, now) ==
            RefreshOutcome(Ok(IssuePair(cipher, cfg, sub, now)), blacklist + {token})
  {
    DecodeIssued(cipher, blacklist, Claims(sub, RefreshKind, issued + RefreshLifetime(cfg)), now);
  }

  /** A token that decodes to any kind other than "refresh" is refused and is
      not revoked. */
  lemma RefreshRejectsOtherKinds(cipher: Cipher, cfg: AuthConfig, blacklist: set<string>, token: string, now: int)
    requires var d := DecodeToken(cipher, blacklist, token, now); d.Ok? && d.value.tokenType != RefreshKind
    ensures Refresh(cipher, cfg, blacklist, token, now) == RefreshOutcome(Err(InvalidRefreshToken), blacklist)
  {
  }

  /** Refresh tokens are single-use: once a refresh has succeeded, every later
      refresh with the same string, against any blacklist that has only grown
      since, and at any time, fails as invalidated. */
  lemma RefreshSingleUse(cipher: Cipher, cfg: AuthConfig, blacklist: set<string>, token: string, now: int,
                         later: set<string>, laterNow: int)
    requires Refresh(cipher, cfg, blacklist, token, now).reply.Ok?
    requires Refresh(cipher, cfg, blacklist, token, now).blacklist <= later
    ensures Refresh(cipher, cfg, later, token, laterNow) == RefreshOutcome(Err(TokenInvalidated), later)
  {
  }

  /** The pair a successful refresh issues is for the refreshed token's own
      subject: each new token, while live, decodes to that subject. */
  lemma RefreshKeepsSubject(cipher: Cipher, cfg: AuthConfig, blacklist: set<string>, token: string, now: int,
                                               c: Claims, later: int)
    requires Refresh(cipher, cfg, blacklist, token, now).reply.Ok?
    requires cipher.verifyToken(token) == Some(FullPayload(c))
    requires var o := Refresh(cipher, cfg, blacklist, token, now);
             o.reply.value.accessToken.token !in o.blacklist && o.reply.value.refreshToken.token !in o.blacklist
    requires SignsFaithfully(cipher, Claims(c.sub, AccessKind, now + AccessLifetime(cfg)))
    requires SignsFaithfully(cipher, Claims(c.sub, RefreshKind, now + RefreshLifetime(cfg)))
    requires later <= now + AccessLifetime(cfg) && later <= now + RefreshLifetime(cfg)
    ensures var o := Refresh(cipher, cfg, blacklist, token, now);
            DecodeToken(cipher, o.blacklist, o.reply.value.accessToken.token, later) == Ok(TokenData(c.sub, AccessKind, now + AccessLifetime(cfg))) &&
            DecodeToken(cipher, o.blacklist, o.reply.value.refreshToken.token, later) == Ok(TokenData(c.sub, RefreshKind, now + RefreshLifetime(cfg)))
  {
    var o := Refresh(cipher, cfg, blacklist, token, now);
    assert DecodeToken(cipher, blacklist, token, now).value.email == c.sub;
    IssuedPairDecodes(cipher, cfg, o.blacklist, c.sub, now, later);
  }
}
