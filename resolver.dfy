/** Credential resolution (`user`): a bearer string is first tried as a token
    and, on any failure of that path, as an API key with a leading "Bearer "
    removed. */
module Resolver {
  import opened AuthTypes
  import opened Text
  import opened Tokens
  import opened Directory
  import opened ApiKeys

  const BearerPrefix := "Bearer "

  /** The token path of `user`: decode, insist on a non-empty subject, load
      the user with that email. */
  function TokenUser(cipher: Cipher, blacklist: set<string>, users: map<UserId, User>, token: string, now: int): (r: Result<User>)
    requires UsersWellFormed(users)
    ensures r.Ok? <==>
              var d := DecodeToken(cipher, blacklist, token, now);
              d.Ok? && d.value.email != "" && EmailTaken(users, d.value.email)
    ensures r.Ok? ==>
              r.value.email == DecodeToken(cipher, blacklist, token, now).value.email &&
              r.value.id in users && users[r.value.id] == r.value
  {
    match DecodeToken(cipher, blacklist, token, now)
    case Err(e) => Err(e)
    case Ok(d) =>
      if d.email == "" then Err(CouldNotValidate)
      else UserByEmail(users, d.email)
  }

  /** `user`: the token path, falling back to the API-key path on any failure
      of it. Every failure the caller sees is the API-key path's verdict. */
  function ResolveUser(cipher: Cipher, blacklist: set<string>, users: map<UserId, User>, keys: map<string, ApiKeyRecord>,
                       token: string, now: int): (r: Result<User>)
    requires UsersWellFormed(users)
    ensures r.Ok? ==> r.value.id in users && users[r.value.id] == r.value
    ensures r.Err? ==> r == AuthenticateApiKey(cipher, users, keys, RemovePrefix(token, BearerPrefix))
  {
    match TokenUser(cipher, blacklist, users, token, now)
    case Ok(u) => Ok(u)
    case Err(_) => AuthenticateApiKey(cipher, users, keys, RemovePrefix(token, BearerPrefix))
  }

  /** A live, unrevoked token whose subject is a stored email resolves to that
      user, active or not, whatever the API-key table holds. */
  lemma ResolveByToken(cipher: Cipher, blacklist: set<string>, users: map<UserId, User>, keys: map<string, ApiKeyRecord>,
                       token: string, now: int, id: UserId)
    requires UsersWellFormed(users)
    requires id in users && users[id].email != ""
    requires var d := DecodeToken(cipher, blacklist, token, now); d.Ok? && d.value.email == users[id].email
    ensures ResolveUser(cipher, blacklist, users, keys, token, now) == Ok(users[id])
  {
  }

  /** Any failure on the token path, including an unknown or empty subject,
      hands the prefix-stripped string to the API-key path. */
  lemma ResolveFallsBack(cipher: Cipher, blacklist: set<string>, users: map<UserId, User>, keys: map<string, ApiKeyRecord>,
                         token: string, now: int)
    requires UsersWellFormed(users)
    requires var d := DecodeToken(cipher, blacklist, token, now);
             d.Err? || d.value.email == "" || !EmailTaken(users, d.value.email)
    ensures ResolveUser(cipher, blacklist, users, keys, token, now) ==
            AuthenticateApiKey(cipher, users, keys, RemovePrefix(token, BearerPrefix))
  {
  }

  /** A revoked token never resolves through the token path: whatever it
      resolves to, it resolves to as an API key. */
  lemma RevokedTokenOnlyAsApiKey(cipher: Cipher, blacklist: set<string>, users: map<UserId, User>, keys: map<string, ApiKeyRecord>,
                                 token: string, now: int)
    requires UsersWellFormed(users)
    requires token in blacklist
    ensures ResolveUser(cipher, blacklist, users, keys, token, now) ==
            AuthenticateApiKey(cipher, users, keys, RemovePrefix(token, BearerPrefix))
  {
    ResolveFallsBack(cipher, blacklist, users, keys, token, now);
  }

  /** An issued API key, presented with or without the "Bearer " scheme
      marker, resolves to its active owner when the string is not also a
      token the cipher accepts. */
  lemma ResolveIssuedApiKey(cipher: Cipher, blacklist: set<string>, users: map<UserId, User>,
                                               keys: map<string, ApiKeyRecord>, keyId: string, raw: string,
                                               bearer: bool, now: int)
    requires UsersWellFormed(users)
    requires '.' !in keyId && keyId in keys && cipher.verifyApiKey(raw, keys[keyId].hashedKey)
    requires keys[keyId].userId in users && users[keys[keyId].userId].isActive
    requires var presented := if bearer then BearerPrefix + CompositeKey(keyId, raw) else CompositeKey(keyId, raw);
             cipher.verifyToken(presented).None?
    requires !bearer ==> !(BearerPrefix <= CompositeKey(keyId, raw))
    ensures var presented := if bearer then BearerPrefix + CompositeKey(keyId, raw) else CompositeKey(keyId, raw);
            ResolveUser(cipher, blacklist, users, keys, presented, now) == Ok(users[keys[keyId].userId])
  {
    var presented := if bearer then BearerPrefix + CompositeKey(keyId, raw) else CompositeKey(keyId, raw);
    assert RemovePrefix(presented, BearerPrefix) == CompositeKey(keyId, raw);
    ApiKeyRoundTrip(cipher, users, keys, keyId, raw);
  }

  /** `get_current_active_user`: passes an active user through, refuses an
      inactive one with 400. */
  function GetCurrentActiveUser(u: User): (r: Result<User>)
    ensures r.Ok? <==> u.isActive
    ensures r.Ok? ==> r.value == u
    ensures r.Err? ==> r.error == InactiveUser
  {
    if !u.isActive then Err(InactiveUser) else Ok(u)
  }
}
