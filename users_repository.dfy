/**
 * The user service's UserRepository over the Users table: lookups by id and
 * by email (which also find deactivated users), the active-user listing
 * sorted by FullName, creation with password hashing, updates, soft delete,
 * and the active-only existence checks. The table's UNIQUE constraint on
 * Email is kept as an invariant; a write that would break it fails the way
 * SaveChanges does.
 */
module UsersRepository {
  import opened Common

  datatype User = User(
    userId: int,
    fullName: string,
    email: string,
    password: Option<string>,
    googleId: Option<string>,
    role: int,
    isGoogleUser: bool,
    isActive: bool,
    createdAt: Instant,
    updatedAt: Instant)

  /** The exceptions of the user operations. */
  datatype UserFailure =
    | UserNotFound     // ArgumentException("User not found")
    | DuplicateEmail   // the UNIQUE index on Email rejects the save

  datatype Result<+T> = Ok(value: T) | Err(failure: UserFailure)

  // ----- The Role column -----

  /** The Role column's database default: 2, the customer role. */
  const DefaultRole: int := 2

  /**
   * The role a new row ends up with. Role is mapped with a database default
   * of 2, so a role left at the CLR default 0 is not sent with the INSERT;
   * the row takes the column default, which the insert reads back.
   */
  function StoredRole(role: int): (r: int)
    ensures r != 0
    ensures role == 0 ==> r == DefaultRole
    ensures role != 0 ==> r == role
  {
    if role == 0 then DefaultRole else role
  }

  // ----- Passwords -----

  const PasswordSalt: string := "SpicyNoodleSalt"
  const Base64Alphabet: string := "ABCDEFGHIJKLMNOPQRSTUVWXYZabcdefghijklmnopqrstuvwxyz0123456789+/"

  function CodeSum(s: string): nat
  {
    if s == [] then 0 else CodeSum(s[..|s| - 1]) + s[|s| - 1] as nat
  }

  /**
   * `HashPassword`: Base64 of SHA-256 over the password and the salt. The
   * digest itself is not modelled; this deterministic stand-in keeps the
   * shape of its output (44 characters ending in '='), which is all the
   * model relies on.
   */
  function HashPassword(password: string): (h: string)
    ensures |h| == 44 && h[43] == '='
  {
    var d := CodeSum(password + PasswordSalt);
    seq(43, i requires 0 <= i < 43 => Base64Alphabet[(d + i) % 64]) + "="
  }

  /** `VerifyPassword`: hash the candidate and compare; a null stored password never matches. */
  predicate VerifyPassword(password: string, stored: Option<string>)
    ensures stored.None? ==> !VerifyPassword(password, stored)
    ensures VerifyPassword(password, stored) ==> |stored.value| == 44 && stored.value[43] == '='
    ensures stored == Some(HashPassword(password)) ==> VerifyPassword(password, stored)
  {
    stored.Some? && HashPassword(password) == stored.value
  }

  /** A password always verifies against its own hash. */
  lemma VerifyOwnHash(password: string)
    ensures VerifyPassword(password, Some(HashPassword(password)))
  {
  }

  /** A stored value that is not 44 characters long (such as an unhashed password) matches no password. */
  lemma UnhashedNeverVerifies(password: string, stored: string)
    requires |stored| != 44
    ensures !VerifyPassword(password, Some(stored))
  {
  }

  /** What CreateAsync stores: a non-empty password is hashed, a null or empty one is kept. */
  function StoredPassword(password: Option<string>): (r: Option<string>)
    ensures password.None? ==> r.None?
    ensures password == Some("") ==> r == Some("")
    ensures password.Some? && password.value != "" ==> r.Some? && VerifyPassword(password.value, r)
  {
    if password.Some? && password.value != "" then Some(HashPassword(password.value)) else password
  }

  // ----- Lookups over the table -----

  /** The position of the row with this id (`FirstOrDefault(u => u.UserId == id)`). */
  function IndexOfId(users: seq<User>, id: int): (r: Option<nat>)
    ensures r.None? <==> forall k :: 0 <= k < |users| ==> users[k].userId != id
    ensures r.Some? ==> r.value < |users| && users[r.value].userId == id
                        && forall k :: 0 <= k < r.value ==> users[k].userId != id
  {
    if users == [] then None
    else if users[0].userId == id then Some(0)
    else
      match IndexOfId(users[1..], id)
      case None => None
      case Some(k) => Some(k + 1)
  }

  /** The position of the row with this email (`FirstOrDefault(u => u.Email == email)`). */
  function IndexOfEmail(users: seq<User>, email: string): (r: Option<nat>)
    ensures r.None? <==> forall k :: 0 <= k < |users| ==> users[k].email != email
    ensures r.Some? ==> r.value < |users| && users[r.value].email == email
                        && forall k :: 0 <= k < r.value ==> users[k].email != email
  {
    if users == [] then None
    else if users[0].email == email then Some(0)
    else
      match IndexOfEmail(users[1..], email)
      case None => None
      case Some(k) => Some(k + 1)
  }

  /** No two rows share an email (the UNIQUE index on Email). */
  ghost predicate UniqueEmails(users: seq<User>)
  {
    forall j, k :: 0 <= j < |users| && 0 <= k < |users| && j != k ==> users[j].email != users[k].email
  }

  /** With unique emails the email lookup finds the one row holding it. */
  lemma EmailFindsRow(users: seq<User>, k: nat)
    requires UniqueEmails(users) && k < |users|
    ensures IndexOfEmail(users, users[k].email) == Some(k)
  {
  }

  // ----- Listing -----

  /** Ordinal string order: the lexicographic order on character codes. */
  predicate NameLe(a: string, b: string)
    decreases |a|
  {
    a == [] || (b != [] && (a[0] < b[0] || (a[0] == b[0] && NameLe(a[1..], b[1..]))))
  }

  lemma {:induction false} NameLeTotal(a: string, b: string)
    ensures NameLe(a, b) || NameLe(b, a)
    decreases |a|
  {
    if a != [] && b != [] && a[0] == b[0] {
      NameLeTotal(a[1..], b[1..]);
    }
  }

  predicate SortedByName(s: seq<User>)
  {
    forall i :: 0 < i < |s| ==> NameLe(s[i - 1].fullName, s[i].fullName)
  }

  /** Insert one user into a name-sorted list. */
  function InsertByName(u: User, s: seq<User>): (r: seq<User>)
    requires SortedByName(s)
    ensures SortedByName(r)
    ensures multiset(r) == multiset(s) + multiset{u}
    ensures |r| == |s| + 1 && (r[0] == u || (s != [] && r[0] == s[0]))
  {
    if s == [] then [u]
    else if NameLe(u.fullName, s[0].fullName) then [u] + s
    else
      NameLeTotal(u.fullName, s[0].fullName);
      assert SortedByName(s[1..]) by {
        forall i | 0 < i < |s[1..]| ensures NameLe(s[1..][i - 1].fullName, s[1..][i].fullName) {
          assert s[1..][i - 1] == s[i] && s[1..][i] == s[i + 1];
        }
      }
      var rest := InsertByName(u, s[1..]);
      assert s == [s[0]] + s[1..];
      [s[0]] + rest
  }

  /** Sort by FullName (insertion sort; the order among equal names is not specified by the source). */
  function SortByName(s: seq<User>): (r: seq<User>)
    ensures SortedByName(r)
    ensures multiset(r) == multiset(s)
    ensures forall u :: u in r <==> u in s
  {
    if s == [] then []
    else
      var front := s[..|s| - 1];
      assert s == front + [s[|s| - 1]];
      var r := InsertByName(s[|s| - 1], SortByName(front));
      assert forall u :: u in r <==> u in multiset(r);
      assert forall u :: u in s <==> u in multiset(s);
      r
  }

  /** The active rows, in table order. */
  function ActiveUsers(users: seq<User>): (r: seq<User>)
    ensures forall u :: u in r <==> u in users && u.isActive
  {
    if users == [] then []
    else
      var front := users[..|users| - 1];
      var last := users[|users| - 1];
      assert users == front + [last];
      ActiveUsers(front) + (if last.isActive then [last] else [])
  }

  // ----- The repository -----

  class UserRepository {
    var users: seq<User>
    var nextUserId: int

    /** Ids are positive, below the identity counter and increasing along the table; emails are unique. */
    ghost predicate Valid()
      reads this
    {
      && 0 < nextUserId
      && (forall k :: 0 <= k < |users| ==> 0 < users[k].userId < nextUserId)
      && (forall j, k :: 0 <= j < k < |users| ==> users[j].userId < users[k].userId)
      && UniqueEmails(users)
    }

    constructor ()
      ensures Valid() && users == []
    {
      users := [];
      nextUserId := 1;
    }

    /** `GetByIdAsync`: deactivated users are returned too. */
    function GetById(id: int): (r: Option<User>)
      reads this
      ensures r.None? <==> forall k :: 0 <= k < |users| ==> users[k].userId != id
      ensures r.Some? ==> r.value in users && r.value.userId == id
    {
      match IndexOfId(users, id)
      case None => None
      case Some(k) => Some(users[k])
    }

    /** `GetByEmailAsync`: deactivated users are returned too. */
    function GetByEmail(email: string): (r: Option<User>)
      reads this
      ensures r.None? <==> forall k :: 0 <= k < |users| ==> users[k].email != email
      ensures r.Some? ==> r.value in users && r.value.email == email
    {
      match IndexOfEmail(users, email)
      case None => None
      case Some(k) => Some(users[k])
    }

    /** `GetAllAsync`: exactly the active users, each once per row, sorted by FullName. */
    function GetAll(): (r: seq<User>)
      reads this
      ensures SortedByName(r)
      ensures forall u :: u in r <==> u in users && u.isActive
      ensures multiset(r) == multiset(ActiveUsers(users))
    {
      SortByName(ActiveUsers(users))
    }

    /** `ExistsAsync`: an active user has this id. */
    predicate Exists(id: int)
      reads this
      ensures Exists(id) ==> IndexOfId(users, id).Some?
      ensures IndexOfId(users, id).Some? && users[IndexOfId(users, id).value].isActive ==> Exists(id)
    {
      exists k :: 0 <= k < |users| && users[k].userId == id && users[k].isActive
    }

    /** `EmailExistsAsync`: an active user has this email. */
    predicate EmailExists(email: string)
      reads this
      ensures EmailExists(email) ==> IndexOfEmail(users, email).Some?
      ensures IndexOfEmail(users, email).Some? && users[IndexOfEmail(users, email).value].isActive ==> EmailExists(email)
    {
      exists k :: 0 <= k < |users| && users[k].email == email && users[k].isActive
    }

    /** An id exists exactly when the row found by id is active. */
    lemma ExistsMeansActiveRow(id: int)
      requires Valid()
      ensures Exists(id) <==> GetById(id).Some? && GetById(id).value.isActive
    {
      if Exists(id) {
        var k :| 0 <= k < |users| && users[k].userId == id && users[k].isActive;
      }
    }

    /** An email exists exactly when the row found by email is active. */
    lemma EmailExistsMeansActiveRow(email: string)
      requires Valid()
      ensures EmailExists(email) <==> GetByEmail(email).Some? && GetByEmail(email).value.isActive
    {
      if EmailExists(email) {
        var k :| 0 <= k < |users| && users[k].email == email && users[k].isActive;
        EmailFindsRow(users, k);
      }
    }

    /**
     * `CreateAsync`: the store assigns the id, stamps both times, activates
     * the user and hashes a non-empty password. A row already holding the
     * email makes the save fail.
     */
    method Create(user: User, now: Instant) returns (r: Result<User>)
      requires Valid()
      modifies this
      ensures Valid()
      ensures IndexOfEmail(old(users), user.email).Some? ==>
                r == Err(DuplicateEmail) && users == old(users) && nextUserId == old(nextUserId)
      ensures IndexOfEmail(old(users), user.email).None? ==>
                && r == Ok(user.(userId := old(nextUserId), createdAt := now, updatedAt := now, isActive := true,
                                 password := StoredPassword(user.password), role := StoredRole(user.role)))
                && users == old(users) + [r.value]
                && nextUserId == old(nextUserId) + 1
    {
      if IndexOfEmail(users, user.email).Some? {
        return Err(DuplicateEmail);
      }
      var created := user.(userId := nextUserId, createdAt := now, updatedAt := now, isActive := true,
                           password := StoredPassword(user.password), role := StoredRole(user.role));
      users := users + [created];
      nextUserId := nextUserId + 1;
      r := Ok(created);
    }

    /**
     * `UpdateAsync`: overwrite the row with the user's id, stamping UpdatedAt.
     * The password is stored as given. An email held by another row makes
     * the save fail.
     */
    method Update(user: User, now: Instant) returns (r: Result<User>)
      requires Valid()
      requires IndexOfId(users, user.userId).Some?
      modifies this`users
      ensures Valid()
      ensures var k := IndexOfId(old(users), user.userId).value;
              var clash := IndexOfEmail(old(users), user.email).Some? && IndexOfEmail(old(users), user.email) != Some(k);
              && (clash ==> r == Err(DuplicateEmail) && users == old(users))
              && (!clash ==> r == Ok(user.(updatedAt := now)) && users == old(users)[k := r.value])
    {
      var k := IndexOfId(users, user.userId).value;
      var holder := IndexOfEmail(users, user.email);
      if holder.Some? && holder != Some(k) {
        return Err(DuplicateEmail);
      }
      var updated := user.(updatedAt := now);
      users := users[k := updated];
      r := Ok(updated);
    }

    /** `DeleteAsync`: soft delete; the row stays, deactivated. An unknown id changes nothing. */
    method Delete(id: int, now: Instant)
      requires Valid()
      modifies this`users
      ensures Valid()
      ensures IndexOfId(old(users), id).None? ==> users == old(users)
      ensures IndexOfId(old(users), id).Some? ==>
                var k := IndexOfId(old(users), id).value;
                users == old(users)[k := old(users)[k].(isActive := false, updatedAt := now)]
      ensures !Exists(id)
      ensures GetById(id).Some? <==> old(GetById(id)).Some?
    {
      var k := IndexOfId(users, id);
      if k.Some? {
        users := users[k.value := users[k.value].(isActive := false, updatedAt := now)];
        assert forall j :: 0 <= j < |users| ==> users[j].userId == old(users)[j].userId;
      }
    }
  }
}
