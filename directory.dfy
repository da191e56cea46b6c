/** The parts of the directory store the provider reads and writes, as plain
    values: the user table, the per-user verification codes and reset tokens,
    and the lookups the provider asks the store to make. */
module Directory {
  import opened AuthTypes

  /** Rows are keyed by their own id and no two users share an email
      (the store's unique constraint). */
  predicate UsersWellFormed(users: map<UserId, User>) {
    (forall id :: id in users ==> users[id].id == id) &&
    (forall i, j :: i in users && j in users && users[i].email == users[j].email ==> i == j)
  }

  /** Some stored user already has `email`; `create_user` refuses such an email. */
  predicate EmailTaken(users: map<UserId, User>, email: string) {
    exists id :: id in users && users[id].email == email
  }

  /** Adding a user under a fresh id with an untaken email keeps the table well formed. */
  lemma AddUserKeepsWellFormed(users: map<UserId, User>, u: User)
    requires UsersWellFormed(users) && u.id !in users && !EmailTaken(users, u.email)
    ensures UsersWellFormed(users[u.id := u])
  {
    var added := users[u.id := u];
    forall i, j | i in added && j in added && added[i].email == added[j].email
      ensures i == j
    {
      if i != u.id && j != u.id {
        assert users[i].email == users[j].email;
      }
    }
  }

  /** `get_user_by_email`: the one user with that email, or the store's 404. */
  function UserByEmail(users: map<UserId, User>, email: string): (r: Result<User>)
    requires UsersWellFormed(users)
    ensures r.Ok? <==> EmailTaken(users, email)
    ensures r.Ok? ==> r.value.id in users && users[r.value.id] == r.value && r.value.email == email
    ensures r.Err? ==> r.error == UserNotFound
  {
    if EmailTaken(users, email) then
      var id :| id in users && users[id].email == email;
      Ok(users[id])
    else Err(UserNotFound)
  }

  /** `get_user_by_id`: the user with that id, or the store's 404. */
  function UserById(users: map<UserId, User>, id: UserId): (r: Result<User>)
    ensures r.Ok? <==> id in users
    ensures r.Ok? ==> r.value == users[id]
    ensures r.Err? ==> r.error == UserNotFound
  {
    if id in users then Ok(users[id]) else Err(UserNotFound)
  }

  /** User `id` holds the one-time code `code` and it has not yet expired. */
  predicate Holds(codes: map<UserId, CodeEntry>, id: UserId, code: string, now: int) {
    id in codes && codes[id].code == code && now <= codes[id].expiry
  }

  /** `get_user_id_by_verification_code` / `get_user_id_by_reset_token` find a user. */
  predicate CodeResolves(codes: map<UserId, CodeEntry>, code: string, now: int) {
    exists id :: id in codes && Holds(codes, id, code, now)
  }

  /** Once `remove_verification_code` has run, the code resolves for nobody,
      at any time: a verification code is single-use. */
  lemma CodeSingleUse(codes: map<UserId, CodeEntry>, code: string, now: int)
    ensures !CodeResolves(WithoutCode(codes, code), code, now)
  {
  }

  /** `update_user_password`: replaces one user's hash and nothing else. */
  function SetPassword(users: map<UserId, User>, id: UserId, hash: string): (r: map<UserId, User>)
    ensures r.Keys == users.Keys
    ensures forall i :: i in users && i != id ==> r[i] == users[i]
    ensures id in users ==> r[id] == users[id].(hashedPassword := hash)
    ensures UsersWellFormed(users) ==> UsersWellFormed(r)
  {
    if id in users then users[id := users[id].(hashedPassword := hash)] else users
  }

  /** `mark_user_as_verified`: sets one user's verified flag and nothing else. */
  function MarkVerified(users: map<UserId, User>, id: UserId): (r: map<UserId, User>)
    ensures r.Keys == users.Keys
    ensures forall i :: i in users && i != id ==> r[i] == users[i]
    ensures id in users ==> r[id] == users[id].(isVerified := true)
    ensures UsersWellFormed(users) ==> UsersWellFormed(r)
  {
    if id in users then users[id := users[id].(isVerified := true)] else users
  }

  /** `remove_verification_code`: clears the code from every user holding it. */
  function WithoutCode(codes: map<UserId, CodeEntry>, code: string): (r: map<UserId, CodeEntry>)
    ensures forall id :: id in r <==> id in codes && codes[id].code != code
    ensures forall id :: id in r ==> r[id] == codes[id]
  {
    map id | id in codes && codes[id].code != code :: codes[id]
  }
}
