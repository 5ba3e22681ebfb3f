/**
 * UsersService: sign-in, registration, password reset, profile update and
 * deletion over the UserRepository. The JWT is modelled by its claims and
 * expiry; signing and encoding are not modelled.
 *
 * ForgotPassword and UpdateUser store the new password unhashed (the
 * repository's UpdateAsync does not hash), so the account can no longer sign
 * in with it; ForgotPasswordHashed and UpdateUserHashed are the evidently
 * intended versions, which hash before storing.
 */
module UsersService {
  import opened Common
  import opened UsersRepository

  datatype LoginRequest = LoginRequest(email: string, password: string)

  datatype RegisterRequest = RegisterRequest(fullName: string, email: string, password: string)

  /** Absent fields leave the stored values in place. */
  datatype UpdateUserRequest = UpdateUserRequest(fullName: Option<string>, email: Option<string>, password: Option<string>)

  datatype UserDto = UserDto(userId: int, fullName: string, email: string, role: int, isGoogleUser: bool)

  /** The claims and expiry of the issued JWT. */
  datatype TokenClaims = TokenClaims(nameIdentifier: string, name: string, email: string, role: string, expires: Instant)

  datatype AuthResult = AuthResult(success: bool, token: Option<TokenClaims>, message: Option<string>, user: Option<UserDto>)

  const InvalidCredentialsMessage: string := "Invalid email or password"
  const UseGoogleLoginMessage: string := "Please use Google login for this account"
  const EmailExistsMessage: string := "Email already exists"
  const TokenLifetimeDays: int := 7
  const MillisPerDay: int := 24 * 60 * MillisPerMinute
  /** The role the services write on a new account: 0, which the store replaces by DefaultRole. */
  const UnsetRole: int := 0
  const TemporaryPasswordLength: nat := 8

  function Dto(u: User): UserDto
  {
    UserDto(u.userId, u.fullName, u.email, u.role, u.isGoogleUser)
  }

  /** `GenerateJwtToken`: id, name, email and role claims, valid for seven days. */
  function GenerateJwtToken(u: User, now: Instant): (t: TokenClaims)
    ensures t.expires - now == 7 * 24 * 60 * 60 * 1000
    ensures t.name == u.fullName && t.email == u.email
    ensures t.nameIdentifier == IntToString(u.userId) && t.role == IntToString(u.role)
  {
    TokenClaims(IntToString(u.userId), u.fullName, u.email, IntToString(u.role), now + TokenLifetimeDays * MillisPerDay)
  }

  function Granted(u: User, now: Instant): AuthResult
  {
    AuthResult(true, Some(GenerateJwtToken(u, now)), None, Some(Dto(u)))
  }

  function Denied(message: string): AuthResult
  {
    AuthResult(false, None, Some(message), None)
  }

  // ----- LoginAsync -----

  /**
   * `LoginAsync`: the row found by email must be active, not a Google
   * account, and hold the hash of the given password; only then is a token
   * issued, with a DTO copied from the stored row.
   */
  function Login(users: seq<User>, request: LoginRequest, now: Instant): (r: AuthResult)
    ensures var k := IndexOfEmail(users, request.email);
            r.success <==> k.Some? && users[k.value].isActive && !users[k.value].isGoogleUser
                           && VerifyPassword(request.password, users[k.value].password)
    ensures !r.success ==> r.token.None? && r.user.None?
    ensures var k := IndexOfEmail(users, request.email);
            r.success ==> var u := users[k.value];
                          && r.user == Some(UserDto(u.userId, u.fullName, u.email, u.role, u.isGoogleUser))
                          && r.token.Some? && r.token.value.nameIdentifier == IntToString(u.userId)
    ensures var k := IndexOfEmail(users, request.email);
            r.message == Some(UseGoogleLoginMessage) <==> k.Some? && users[k.value].isActive && users[k.value].isGoogleUser
  {
    match IndexOfEmail(users, request.email)
    case None => Denied(InvalidCredentialsMessage)
    case Some(k) =>
      var user := users[k];
      if !user.isActive then Denied(InvalidCredentialsMessage)
      else if user.isGoogleUser then Denied(UseGoogleLoginMessage)
      else if !VerifyPassword(request.password, user.password) then Denied(InvalidCredentialsMessage)
      else Granted(user, now)
  }

  /** A stored password that is not a hash (an unhashed one, say) admits no password sign-in for that row. */
  lemma UnhashedPasswordRejected(users: seq<User>, k: nat, password: string, now: Instant)
    requires UniqueEmails(users) && k < |users|
    requires users[k].password == Some(password) && |password| != 44
    ensures !Login(users, LoginRequest(users[k].email, password), now).success
  {
    EmailFindsRow(users, k);
    UnhashedNeverVerifies(password, password);
  }

  /** An active password account whose stored password is the hash of `password` signs in with it. */
  lemma HashedPasswordAccepted(users: seq<User>, k: nat, password: string, now: Instant)
    requires UniqueEmails(users) && k < |users|
    requires users[k].isActive && !users[k].isGoogleUser
    requires users[k].password == Some(HashPassword(password))
    ensures Login(users, LoginRequest(users[k].email, password), now) == Granted(users[k], now)
  {
    EmailFindsRow(users, k);
  }

  /** An active Google account is refused password sign-in, whatever the password. */
  lemma GoogleAccountRefusesPassword(users: seq<User>, k: nat, password: string, now: Instant)
    requires UniqueEmails(users) && k < |users|
    requires users[k].isActive && users[k].isGoogleUser
    ensures Login(users, LoginRequest(users[k].email, password), now) == Denied(UseGoogleLoginMessage)
  {
    EmailFindsRow(users, k);
  }

  // ----- RegisterAsync -----

  /**
   * `RegisterAsync`: refused when an active user has the email. Otherwise a
   * customer (password account, active) is created: the service leaves the
   * role at 0 and the row stores the column default 2; if a deactivated
   * row still holds the email, the UNIQUE index rejects the insert and the
   * exception propagates.
   */
  method Register(repo: UserRepository, request: RegisterRequest, now: Instant) returns (r: Result<AuthResult>)
    requires repo.Valid()
    modifies repo
    ensures repo.Valid()
    ensures old(repo.EmailExists(request.email)) ==>
              r == Ok(Denied(EmailExistsMessage)) && repo.users == old(repo.users)
    ensures !old(repo.EmailExists(request.email)) && IndexOfEmail(old(repo.users), request.email).Some? ==>
              r == Err(DuplicateEmail) && repo.users == old(repo.users)
    ensures IndexOfEmail(old(repo.users), request.email).None? ==>
              var created := User(old(repo.nextUserId), request.fullName, request.email, StoredPassword(Some(request.password)),
                                  None, DefaultRole, false, true, now, now);
              && r == Ok(Granted(created, now))
              && repo.users == old(repo.users) + [created]
  {
    if repo.EmailExists(request.email) {
      return Ok(Denied(EmailExistsMessage));
    }
    var created := repo.Create(User(0, request.fullName, request.email, Some(request.password), None, UnsetRole, false, true, now, now), now);
    match created
    case Err(f) => r := Err(f);
    case Ok(u) => r := Ok(Granted(u, now));
  }

  /** A freshly registered account signs in with its password exactly when that password is not empty. */
  lemma RegisteredUserCanSignIn(users: seq<User>, created: User, password: string, now: Instant)
    requires UniqueEmails(users)
    requires IndexOfEmail(users, created.email).None?
    requires created.isActive && !created.isGoogleUser && created.password == StoredPassword(Some(password))
    ensures Login(users + [created], LoginRequest(created.email, password), now).success <==> password != ""
  {
    var after := users + [created];
    assert UniqueEmails(after) by {
      forall j, k | 0 <= j < |after| && 0 <= k < |after| && j != k
        ensures after[j].email != after[k].email
      {
        if j < |users| && k < |users| {
          assert after[j] == users[j] && after[k] == users[k];
        }
      }
    }
    EmailFindsRow(after, |users|);
    if password == "" {
      UnhashedNeverVerifies(password, "");
    }
  }

  // ----- ForgotPasswordAsync -----

  /** The row a password reset or profile update may change: present and active (and, for a reset, not a Google account). */
  function ResettableRow(users: seq<User>, email: string): (k: Option<nat>)
    ensures k.Some? ==> k.value < |users| && users[k.value].email == email
                        && users[k.value].isActive && !users[k.value].isGoogleUser
    ensures k.None? ==> IndexOfEmail(users, email).None? || !users[IndexOfEmail(users, email).value].isActive
                        || users[IndexOfEmail(users, email).value].isGoogleUser
  {
    match IndexOfEmail(users, email)
    case None => None
    case Some(k) => if users[k].isActive && !users[k].isGoogleUser then Some(k) else None
  }

  /**
   * `ForgotPasswordAsync` as written: always answers true; for an active
   * password account it stores the 8-character temporary password unhashed,
   * after which that password no longer signs in.
   */
  method ForgotPassword(repo: UserRepository, email: string, tempPassword: string, now: Instant) returns (accepted: bool)
    requires repo.Valid()
    requires |tempPassword| == TemporaryPasswordLength
    modifies repo`users
    ensures repo.Valid()
    ensures accepted
    ensures ResettableRow(old(repo.users), email).None? ==> repo.users == old(repo.users)
    ensures ResettableRow(old(repo.users), email).Some? ==>
              var k := ResettableRow(old(repo.users), email).value;
              && repo.users == old(repo.users)[k := old(repo.users)[k].(password := Some(tempPassword), updatedAt := now)]
              && forall later: Instant :: !Login(repo.users, LoginRequest(email, tempPassword), later).success
  {
    var k := ResettableRow(repo.users, email);
    if k.None? {
      return true;
    }
    var user := repo.users[k.value].(password := Some(tempPassword));
    EmailFindsRow(repo.users, k.value);
    var saved := repo.Update(user, now);
    forall later: Instant ensures !Login(repo.users, LoginRequest(email, tempPassword), later).success {
      UnhashedPasswordRejected(repo.users, k.value, tempPassword, later);
    }
    accepted := true;
  }

  /** `ForgotPasswordAsync` with the temporary password hashed before it is stored: it then signs in. */
  method ForgotPasswordHashed(repo: UserRepository, email: string, tempPassword: string, now: Instant) returns (accepted: bool)
    requires repo.Valid()
    requires |tempPassword| == TemporaryPasswordLength
    modifies repo`users
    ensures repo.Valid()
    ensures accepted
    ensures ResettableRow(old(repo.users), email).None? ==> repo.users == old(repo.users)
    ensures ResettableRow(old(repo.users), email).Some? ==>
              var k := ResettableRow(old(repo.users), email).value;
              && repo.users == old(repo.users)[k := old(repo.users)[k].(password := Some(HashPassword(tempPassword)), updatedAt := now)]
              && forall later: Instant :: Login(repo.users, LoginRequest(email, tempPassword), later).success
  {
    var k := ResettableRow(repo.users, email);
    if k.None? {
      return true;
    }
    var user := repo.users[k.value].(password := Some(HashPassword(tempPassword)));
    EmailFindsRow(repo.users, k.value);
    var saved := repo.Update(user, now);
    forall later: Instant ensures Login(repo.users, LoginRequest(email, tempPassword), later).success {
      HashedPasswordAccepted(repo.users, k.value, tempPassword, later);
    }
    accepted := true;
  }

  // ----- UpdateUserAsync -----

  /**
   * The row after applying the request: absent name or email keep the
   * stored ones, an absent or empty password keeps the stored password, and
   * a new password is stored hashed only when `hashed` is set.
   */
  function Apply(u: User, request: UpdateUserRequest, hashed: bool): User
  {
    var changesPassword := request.password.Some? && request.password.value != "";
    u.(fullName := if request.fullName.Some? then request.fullName.value else u.fullName,
       email := if request.email.Some? then request.email.value else u.email,
       password := if !changesPassword then u.password
                   else if hashed then Some(HashPassword(request.password.value))
                   else request.password)
  }

  /** Active row with this id, if any. */
  function ActiveRowById(users: seq<User>, id: int): (k: Option<nat>)
    ensures k.Some? ==> k.value < |users| && users[k.value].userId == id && users[k.value].isActive
    ensures k.None? ==> IndexOfId(users, id).None? || !users[IndexOfId(users, id).value].isActive
    ensures k.Some? ==> k == IndexOfId(users, id)
  {
    match IndexOfId(users, id)
    case None => None
    case Some(k) => if users[k].isActive then Some(k) else None
  }

  /**
   * `UpdateUserAsync` as written: a missing or inactive user throws; null
   * name or email keep the stored ones, a null or empty password keeps the
   * stored password, and a new password is stored unhashed. An email held
   * by another row makes the save fail.
   */
  method UpdateUser(repo: UserRepository, id: int, request: UpdateUserRequest, now: Instant) returns (r: Result<User>)
    requires repo.Valid()
    modifies repo`users
    ensures repo.Valid()
    ensures ActiveRowById(old(repo.users), id).None? ==> r == Err(UserNotFound) && repo.users == old(repo.users)
    ensures ActiveRowById(old(repo.users), id).Some? ==>
              var k := ActiveRowById(old(repo.users), id).value;
              var updated := Apply(old(repo.users)[k], request, false).(updatedAt := now);
              var holder := IndexOfEmail(old(repo.users), updated.email);
              && (holder.Some? && holder != Some(k) ==> r == Err(DuplicateEmail) && repo.users == old(repo.users))
              && ((holder.None? || holder == Some(k)) ==> r == Ok(updated) && repo.users == old(repo.users)[k := updated])
    ensures r.Ok? && request.password.Some? && request.password.value != "" && |request.password.value| != 44 ==>
              forall later: Instant :: !Login(repo.users, LoginRequest(r.value.email, request.password.value), later).success
  {
    var k := ActiveRowById(repo.users, id);
    if k.None? {
      return Err(UserNotFound);
    }
    r := repo.Update(Apply(repo.users[k.value], request, false), now);
    if r.Ok? && request.password.Some? && request.password.value != "" && |request.password.value| != 44 {
      forall later: Instant ensures !Login(repo.users, LoginRequest(r.value.email, request.password.value), later).success {
        UnhashedPasswordRejected(repo.users, k.value, request.password.value, later);
      }
    }
  }

  /** `UpdateUserAsync` with a new password hashed before it is stored: a password account then signs in with it. */
  method UpdateUserHashed(repo: UserRepository, id: int, request: UpdateUserRequest, now: Instant) returns (r: Result<User>)
    requires repo.Valid()
    modifies repo`users
    ensures repo.Valid()
    ensures ActiveRowById(old(repo.users), id).None? ==> r == Err(UserNotFound) && repo.users == old(repo.users)
    ensures ActiveRowById(old(repo.users), id).Some? ==>
              var k := ActiveRowById(old(repo.users), id).value;
              var updated := Apply(old(repo.users)[k], request, true).(updatedAt := now);
              var holder := IndexOfEmail(old(repo.users), updated.email);
              && (holder.Some? && holder != Some(k) ==> r == Err(DuplicateEmail) && repo.users == old(repo.users))
              && ((holder.None? || holder == Some(k)) ==> r == Ok(updated) && repo.users == old(repo.users)[k := updated])
    ensures r.Ok? && !r.value.isGoogleUser && request.password.Some? && request.password.value != "" ==>
              forall later: Instant :: Login(repo.users, LoginRequest(r.value.email, request.password.value), later).success
  {
    var k := ActiveRowById(repo.users, id);
    if k.None? {
      return Err(UserNotFound);
    }
    r := repo.Update(Apply(repo.users[k.value], request, true), now);
    if r.Ok? && !r.value.isGoogleUser && request.password.Some? && request.password.value != "" {
      forall later: Instant ensures Login(repo.users, LoginRequest(r.value.email, request.password.value), later).success {
        HashedPasswordAccepted(repo.users, k.value, request.password.value, later);
      }
    }
  }

  // ----- DeleteUserAsync -----

  /** `DeleteUserAsync`: false, with nothing changed, unless an active user has the id; otherwise a soft delete. */
  method DeleteUser(repo: UserRepository, id: int, now: Instant) returns (deleted: bool)
    requires repo.Valid()
    modifies repo`users
    ensures repo.Valid()
    ensures deleted <==> old(repo.Exists(id))
    ensures !deleted ==> repo.users == old(repo.users)
    ensures deleted ==>
              var k := IndexOfId(old(repo.users), id).value;
              repo.users == old(repo.users)[k := old(repo.users)[k].(isActive := false, updatedAt := now)]
    ensures !repo.Exists(id)
  {
    if !repo.Exists(id) {
      return false;
    }
    repo.ExistsMeansActiveRow(id);
    repo.Delete(id, now);
    deleted := true;
  }
}
