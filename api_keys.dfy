/** API keys: the composite key `keyId "." rawSecret`, its verification
    against the stored hash, and the owner-scoped table updates. The table is
    keyed by the public `keyId`, which the store keeps unique. */
module ApiKeys {
  import opened AuthTypes
  import opened Text
  import opened Directory

  /** Every record sits under its own public id, and record ids are distinct. */
  predicate KeysWellFormed(keys: map<string, ApiKeyRecord>) {
    (forall pk :: pk in keys ==> keys[pk].keyId == pk) &&
    (forall p, q :: p in keys && q in keys && keys[p].recordId == keys[q].recordId ==> p == q)
  }

  /** Every record belongs to a stored user. */
  predicate KeysOwned(keys: map<string, ApiKeyRecord>, users: map<UserId, User>) {
    forall pk :: pk in keys ==> keys[pk].userId in users
  }

  /** Storing a record under a fresh public id and a fresh record id keeps the
      table well formed. */
  lemma AddKeyKeepsWellFormed(keys: map<string, ApiKeyRecord>, rec: ApiKeyRecord)
    requires KeysWellFormed(keys) && rec.keyId !in keys
    requires forall pk :: pk in keys ==> keys[pk].recordId != rec.recordId
    ensures KeysWellFormed(keys[rec.keyId := rec])
  {
  }

  /** Ownership survives growing the user table. */
  lemma KeysOwnedGrow(keys: map<string, ApiKeyRecord>, users: map<UserId, User>, more: map<UserId, User>)
    requires KeysOwned(keys, users) && users.Keys <= more.Keys
    ensures KeysOwned(keys, more)
  {
  }

  /** `authenticate_api_key`: split at the first ".", find the record by its
      public half, check the secret half against the stored hash, load the
      owner and refuse an inactive one. */
  function AuthenticateApiKey(cipher: Cipher, users: map<UserId, User>, keys: map<string, ApiKeyRecord>, apiKey: string): (r: Result<User>)
    ensures '.' !in apiKey ==> r == Err(InvalidApiKeyFormat)
    ensures '.' in apiKey ==>
              var parts := SplitOnce(apiKey, '.').value;
              (parts.0 !in keys || !cipher.verifyApiKey(parts.1, keys[parts.0].hashedKey) ==> r == Err(InvalidApiKey))
    ensures r.Ok? ==>
              var parts := SplitOnce(apiKey, '.').value;
              '.' in apiKey && parts.0 in keys &&
              cipher.verifyApiKey(parts.1, keys[parts.0].hashedKey) &&
              keys[parts.0].userId in users && users[keys[parts.0].userId] == r.value &&
              r.value.isActive
  {
    match SplitOnce(apiKey, '.')
    case None => Err(InvalidApiKeyFormat)
    case Some((keyId, raw)) =>
      if keyId !in keys then Err(InvalidApiKey)
      else if !cipher.verifyApiKey(raw, keys[keyId].hashedKey) then Err(InvalidApiKey)
      else
        match UserById(users, keys[keyId].userId)
        case Err(e) => Err(e)
        case Ok(u) => if !u.isActive then Err(InactiveAccount) else Ok(u)
  }

  /** The composite string `create_user_api_key` hands out: the public id,
      one ".", then the secret. */
  function CompositeKey(keyId: string, raw: string): (r: string)
    ensures |r| == |keyId| + 1 + |raw|
    ensures r[..|keyId|] == keyId && r[|keyId|] == '.' && r[|keyId| + 1..] == raw
  {
    keyId + "." + raw
  }

  /** A composite key whose public id has no "." splits back into exactly its
      two halves, whatever the secret holds. */
  lemma CompositeKeySplits(keyId: string, raw: string)
    requires '.' !in keyId
    ensures SplitOnce(CompositeKey(keyId, raw), '.') == Some((keyId, raw))
  {
    SplitOnceJoin(keyId, '.', raw);
  }

  /** Round trip: a composite key whose public half has no "." and whose secret
      matches the stored hash authenticates as the record's owner, if active;
      the secret half may itself contain dots. */
  lemma ApiKeyRoundTrip(cipher: Cipher, users: map<UserId, User>, keys: map<string, ApiKeyRecord>,
                                           keyId: string, raw: string)
    requires '.' !in keyId && keyId in keys && cipher.verifyApiKey(raw, keys[keyId].hashedKey)
    requires keys[keyId].userId in users
    ensures users[keys[keyId].userId].isActive ==>
              AuthenticateApiKey(cipher, users, keys, CompositeKey(keyId, raw)) == Ok(users[keys[keyId].userId])
    ensures !users[keys[keyId].userId].isActive ==>
              AuthenticateApiKey(cipher, users, keys, CompositeKey(keyId, raw)) == Err(InactiveAccount)
  {
    SplitOnceJoin(keyId, '.', raw);
  }

  /** An unknown public id and a wrong secret are indistinguishable to the
      caller: both give the same error. */
  lemma UnknownKeyLooksLikeBadSecret(cipher: Cipher, users: map<UserId, User>, keys: map<string, ApiKeyRecord>,
                                                        keyId: string, raw: string, badRaw: string)
    requires '.' !in keyId && keyId in keys && !cipher.verifyApiKey(badRaw, keys[keyId].hashedKey)
    ensures AuthenticateApiKey(cipher, users, keys, CompositeKey(keyId, badRaw)) ==
            AuthenticateApiKey(cipher, users, keys - {keyId}, CompositeKey(keyId, raw)) ==
            Err(InvalidApiKey)
  {
    SplitOnceJoin(keyId, '.', badRaw);
    SplitOnceJoin(keyId, '.', raw);
  }

  /** The record `recordId` exists and belongs to `userId`. */
  predicate OwnsKey(keys: map<string, ApiKeyRecord>, userId: UserId, recordId: string) {
    exists pk :: pk in keys && keys[pk].recordId == recordId && keys[pk].userId == userId
  }

  /** `delete_api_key`: drops the caller's record with that id; another
      user's record is treated exactly like a missing one. */
  function DropKey(keys: map<string, ApiKeyRecord>, userId: UserId, recordId: string): (r: map<string, ApiKeyRecord>)
    ensures forall pk :: pk in r <==> pk in keys && !(keys[pk].recordId == recordId && keys[pk].userId == userId)
    ensures forall pk :: pk in r ==> r[pk] == keys[pk]
    ensures !OwnsKey(keys, userId, recordId) ==> r == keys
  {
    map pk | pk in keys && !(keys[pk].recordId == recordId && keys[pk].userId == userId) :: keys[pk]
  }

  /** `update_api_key_name`: renames the caller's record with that id;
      another user's record is treated exactly like a missing one. */
  function RenameKey(keys: map<string, ApiKeyRecord>, userId: UserId, recordId: string, newName: string): (r: map<string, ApiKeyRecord>)
    ensures r.Keys == keys.Keys
    ensures forall pk :: pk in keys ==>
              r[pk] == if keys[pk].recordId == recordId && keys[pk].userId == userId
                       then keys[pk].(name := Some(newName)) else keys[pk]
    ensures !OwnsKey(keys, userId, recordId) ==> r == keys
  {
    map pk | pk in keys :: if keys[pk].recordId == recordId && keys[pk].userId == userId
                           then keys[pk].(name := Some(newName)) else keys[pk]
  }

  /** `get_user_api_keys`: exactly the records the user owns. */
  function KeysOf(keys: map<string, ApiKeyRecord>, userId: UserId): (r: map<string, ApiKeyRecord>)
    ensures forall pk :: pk in r <==> pk in keys && keys[pk].userId == userId
    ensures forall pk :: pk in r ==> r[pk] == keys[pk]
  {
    map pk | pk in keys && keys[pk].userId == userId :: keys[pk]
  }

  /** Deleting one record leaves every other key working exactly as before. */
  lemma DropKeepsOthers(cipher: Cipher, users: map<UserId, User>, keys: map<string, ApiKeyRecord>,
                                           userId: UserId, recordId: string, keyId: string, raw: string)
    requires '.' !in keyId
    requires keyId in keys ==> keys[keyId].recordId != recordId || keys[keyId].userId != userId
    ensures AuthenticateApiKey(cipher, users, DropKey(keys, userId, recordId), CompositeKey(keyId, raw)) ==
            AuthenticateApiKey(cipher, users, keys, CompositeKey(keyId, raw))
  {
    SplitOnceJoin(keyId, '.', raw);
  }

  /** A key's name plays no part in authentication. */
  lemma RenameKeepsAuthentication(cipher: Cipher, users: map<UserId, User>, keys: map<string, ApiKeyRecord>,
                                                     userId: UserId, recordId: string, newName: string, apiKey: string)
    ensures AuthenticateApiKey(cipher, users, RenameKey(keys, userId, recordId, newName), apiKey) ==
            AuthenticateApiKey(cipher, users, keys, apiKey)
  {
    var renamed := RenameKey(keys, userId, recordId, newName);
    if '.' in apiKey {
      var keyId := SplitOnce(apiKey, '.').value.0;
      if keyId in keys {
        assert renamed[keyId].hashedKey == keys[keyId].hashedKey;
        assert renamed[keyId].userId == keys[keyId].userId;
      }
    }
  }
}
