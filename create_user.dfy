/**
 * The sign-up hook (app/api/create-user/route.jsx): stores the signed-in account as a row of
 * `users` the first time it is seen, keyed by the identity provider's id in `userId`.
 */
module CreateUser {
  import opened Wrappers
  import opened Schema
  import opened Database

  /** The `user` object of the request body; a missing property is None. */
  datatype UserPayload = UserPayload(id: Option<string>, email: Option<string>, username: Option<string>,
                                     role: Option<string>)

  /** Both successful answers carry the stored row with status 200. */
  datatype CreateUserReply = AlreadyExists(user: User) | CreatedUser(user: User)

  /** `!s` on a JSON string: missing, null and "" are falsy. */
  predicate TruthyString(s: Option<string>) {
    s.Some? && s.value != ""
  }

  /** `user.role || 'user'`. */
  function RoleOrDefault(role: Option<string>): (r: string)
    ensures TruthyString(role) ==> r == role.value
    ensures !TruthyString(role) ==> r == DefaultUserRole
    ensures r != ""
  {
    if TruthyString(role) then role.value else DefaultUserRole
  }

  /** `SELECT ... WHERE user_id = $1 LIMIT 1`: the first row stored for the account, if any. */
  function FindByUserId(users: seq<User>, userId: string): (r: Option<User>)
    ensures r.Some? ==> r.value in users && r.value.userId == Some(userId)
    ensures r.None? ==> forall u :: u in users ==> u.userId != Some(userId)
  {
    if users == [] then None
    else if users[0].userId == Some(userId) then Some(users[0])
    else
      assert forall u :: u in users ==> u == users[0] || u in users[1..];
      FindByUserId(users[1..], userId)
  }

  /** An added row after the first stored for the account does not change which row is found. */
  lemma {:induction false} FindByUserIdAppend(users: seq<User>, userId: string, x: User)
    requires FindByUserId(users, userId).Some?
    ensures FindByUserId(users + [x], userId) == FindByUserId(users, userId)
  {
    assert users != [];
    assert (users + [x])[0] == users[0];
    if users[0].userId != Some(userId) {
      assert (users + [x])[1..] == users[1..] + [x];
      FindByUserIdAppend(users[1..], userId, x);
    }
  }

  /** The row a new account is stored as (its id is assigned by the table's sequence). */
  function NewUserRow(user: UserPayload): User
    requires user.id.Some? && user.email.Some?
  {
    User(0, user.username, user.email.value, Some(RoleOrDefault(user.role)), user.id)
  }

  /**
   * POST: 400 unless the body has a user whose id, email and username are all truthy. An
   * account already stored is answered with its row, unchanged (a differing email or role in
   * the request is ignored). Otherwise the account is stored with its role, or 'user' when
   * the role is falsy, and the new row is answered.
   */
  method CreateUser(db: Store, user: Option<UserPayload>) returns (res: Response<CreateUserReply>)
    requires db.Valid()
    modifies db`users, db`nextUserId
    ensures db.Valid()
    ensures res.BadRequest? <==>
              user.None? || !TruthyString(user.value.id) || !TruthyString(user.value.email) || !TruthyString(user.value.username)
    ensures res.Ok? || res.BadRequest?
    ensures res.Ok? && res.body.AlreadyExists? <==>
              res.Ok? && FindByUserId(old(db.users), user.value.id.value).Some?
    ensures res.Ok? && res.body.AlreadyExists? ==> res.body.user == FindByUserId(old(db.users), user.value.id.value).value
    ensures !(res.Ok? && res.body.CreatedUser?) ==> db.users == old(db.users) && db.nextUserId == old(db.nextUserId)
    ensures res.Ok? && res.body.CreatedUser? ==>
              && res.body.user == NewUserRow(user.value).(id := old(db.nextUserId))
              && db.users == old(db.users) + [res.body.user]
              && db.nextUserId == old(db.nextUserId) + 1
  {
    if user.None? || !TruthyString(user.value.id) || !TruthyString(user.value.email) || !TruthyString(user.value.username) {
      return BadRequest;
    }
    var u := user.value;
    var existing := FindByUserId(db.users, u.id.value);
    if existing.Some? {
      return Ok(AlreadyExists(existing.value));
    }
    var row := db.InsertUser(NewUserRow(u));
    res := Ok(CreatedUser(row));
  }

  /**
   * Signing in twice with the same account id: the second request finds the row the first
   * stored (or found) and answers it as already existing, writing nothing; a different
   * e-mail, name or role in the second request is ignored.
   */
  method CreateUserTwice(db: Store, user: UserPayload, again: UserPayload)
    returns (first: Response<CreateUserReply>, second: Response<CreateUserReply>)
    requires db.Valid()
    requires again.id == user.id && TruthyString(again.email) && TruthyString(again.username)
    modifies db`users, db`nextUserId
    ensures db.Valid()
    ensures first.Ok? ==> second == Ok(AlreadyExists(first.body.user))
    ensures first.Ok? ==> db.users == old(db.users) + (if first.body.CreatedUser? then [first.body.user] else [])
    ensures first.Ok? && user.id.Some? && FindByUserId(old(db.users), user.id.value).None? ==>
              && first.body.CreatedUser? && first.body.user in db.users
              && forall u :: u in db.users && u.userId == user.id ==> u == first.body.user
    ensures |db.users| <= |old(db.users)| + 1
  {
    first := CreateUser(db, Some(user));
    if first.Ok? {
      if first.body.CreatedUser? {
        FindAfterCreate(old(db.users), user.id.value, first.body.user);
      }
    }
    second := CreateUser(db, Some(again));
  }

  /** When no row is stored for the account, the one appended for it is the one found. */
  lemma {:induction false} FindAfterCreate(users: seq<User>, userId: string, x: User)
    requires FindByUserId(users, userId).None? && x.userId == Some(userId)
    ensures FindByUserId(users + [x], userId) == Some(x)
  {
    if users == [] {
      assert users + [x] == [x];
    } else {
      assert (users + [x])[0] == users[0];
      assert (users + [x])[1..] == users[1..] + [x];
      FindAfterCreate(users[1..], userId, x);
    }
  }
}
