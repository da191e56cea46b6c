/** Clients of the provider that use only its contracts: account and key
    scenarios, each checked statically. */
module Scenarios {
  import opened AuthTypes
  import opened Tokens
  import opened Directory
  import opened ApiKeys
  import opened Accounts
  import opened Provider

  /** Register with verification required, fail to log in, verify, log in. */
  method SignUpThenVerify(cipher: Cipher)
    requires cipher.verifyPassword("pw1", cipher.hashPassword("pw1"))
  {
    var p := new AuthProvider(cipher, AuthConfig(None, None, true));
    var reg := p.Register("a@x.com", "pw1", false, "u1", "123456", 0);
    assert reg.Ok? && !reg.value.isVerified;
    assert p.users == map["u1" := p.users["u1"]];
    assert UserByEmail(p.users, "a@x.com") == Ok(p.users["u1"]);
    assert Login(cipher, p.config, p.users, "a@x.com", "pw1", 10) == Err(EmailNotVerified);

    assert Holds(p.verificationCodes, "u1", "123456", 20);
    var verified := p.VerifyEmail("a@x.com", "123456", 20);
    assert verified == Ok(EmailVerified);
    assert p.users["u1"].isVerified;
    assert UserByEmail(p.users, "a@x.com") == Ok(p.users["u1"]);
    assert Login(cipher, p.config, p.users, "a@x.com", "pw1", 30) == Ok(IssuePair(cipher, p.config, "a@x.com", 30));
  }

  /** A wrong current password changes nothing: the old password still logs in. */
  method WrongCurrentPasswordKeepsOld(cipher: Cipher)
    requires cipher.verifyPassword("pw1", cipher.hashPassword("pw1"))
    requires !cipher.verifyPassword("guess", cipher.hashPassword("pw1"))
  {
    var p := new AuthProvider(cipher, AuthConfig(None, None, false));
    var reg := p.Register("a@x.com", "pw1", false, "u1", "unused", 0);
    assert reg.Ok?;
    var changed := p.ChangePassword(reg.value, "guess", "pw2");
    assert changed == Err(IncorrectCurrentPassword);
    assert p.users == map["u1" := p.users["u1"]];
    assert UserByEmail(p.users, "a@x.com") == Ok(p.users["u1"]);
    assert Login(cipher, p.config, p.users, "a@x.com", "pw1", 5).Ok?;
  }

  /** Two keys with the same name coexist; deleting one leaves the other working. */
  method TwoKeysDeleteOne(cipher: Cipher, keyId1: string, keyId2: string, raw1: string, raw2: string)
    requires keyId1 != keyId2 && '.' !in keyId2
    requires cipher.verifyApiKey(raw2, cipher.hashApiKey(raw2))
  {
    var p := new AuthProvider(cipher, AuthConfig(None, None, false));
    var reg := p.Register("a@x.com", "pw", false, "u1", "unused", 0);
    assert "u1" in p.users && p.users["u1"].isActive;
    var first := p.CreateUserApiKey("u1", Some("ci"), keyId1, raw1, "r1");
    var second := p.CreateUserApiKey("u1", Some("ci"), keyId2, raw2, "r2");
    assert first.publicKey != second.publicKey;
    assert AuthenticateApiKey(cipher, p.users, p.apiKeys, second.apiKey) == Ok(p.users["u1"]);
    ghost var before := p.apiKeys;
    assert before[keyId1].recordId == "r1" && before[keyId1].userId == "u1";
    var deleted := p.DeleteUserApiKey("u1", "r1");
    assert deleted && keyId1 !in p.apiKeys;
    DropKeepsOthers(cipher, p.users, before, "u1", "r1", keyId2, raw2);
    assert AuthenticateApiKey(cipher, p.users, p.apiKeys, second.apiKey) == Ok(p.users["u1"]);
  }

  /** Refreshing twice with the same refresh token succeeds at most once. */
  method RefreshTwice(cipher: Cipher, token: string, now: int)
  {
    var p := new AuthProvider(cipher, AuthConfig(None, None, false));
    var first := p.RefreshAccessToken(token, now);
    var second := p.RefreshAccessToken(token, now + 1);
    assert first.Ok? ==> second == Err(TokenInvalidated);
  }
}
