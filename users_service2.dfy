/**
 * The second user service's Google sign-in: the audience and expiry checks
 * on a Google ID token's claims, and the lookup-link-or-create decision for
 * the account. Its sign-in, registration, reset, update and delete are the
 * same as UsersService's and are not repeated here.
 *
 * `fetched` is the token-info endpoint's answer (None when the request fails,
 * answers with an error status, or its body cannot be read); `lookupFails`
 * says that the account lookup by email throws, and `storeFails` that the
 * account write throws.
 */
module UsersService2 {
  import opened Common
  import opened UsersRepository
  import opened UsersService

  /** The claims of the token-info answer the checks read; `exp` is in Unix seconds. */
  datatype TokenInfo = TokenInfo(
    aud: Option<string>,
    exp: Option<int>,
    sub: string,
    email: string,
    name: string)

  datatype GoogleUserInfo = GoogleUserInfo(id: string, email: string, name: string)

  const InvalidGoogleTokenMessage: string := "Invalid Google token"
  const GoogleLoginFailedMessage: string := "Google login failed"

  /** The audience must equal the configured client id, and an `exp` claim, when present, must not be in the past. */
  predicate TokenAccepted(info: TokenInfo, clientId: Option<string>, now: Instant)
  {
    info.aud == clientId && (info.exp.None? || info.exp.value * 1000 >= now)
  }

  /** `VerifyGoogleIdTokenAsync` after the fetch: the user info of an accepted token, else null. */
  function VerifyGoogleIdToken(fetched: Option<TokenInfo>, clientId: Option<string>, now: Instant): (r: Option<GoogleUserInfo>)
    ensures r.Some? <==> fetched.Some? && TokenAccepted(fetched.value, clientId, now)
    ensures r.Some? ==> r.value == GoogleUserInfo(fetched.value.sub, fetched.value.email, fetched.value.name)
  {
    if fetched.None? || !TokenAccepted(fetched.value, clientId, now) then None
    else Some(GoogleUserInfo(fetched.value.sub, fetched.value.email, fetched.value.name))
  }

  /** A token for another audience, or one that expired, is refused; a token without `exp` is not checked for expiry. */
  lemma TokenChecks(info: TokenInfo, clientId: Option<string>, now: Instant)
    ensures info.aud != clientId ==> VerifyGoogleIdToken(Some(info), clientId, now).None?
    ensures info.exp.Some? && info.exp.value * 1000 < now ==> VerifyGoogleIdToken(Some(info), clientId, now).None?
    ensures info.aud == clientId && info.exp.None? ==> VerifyGoogleIdToken(Some(info), clientId, now).Some?
  {
  }

  /** The account has no Google id yet (`string.IsNullOrEmpty(GoogleId)`). */
  predicate Unlinked(u: User)
  {
    u.googleId.None? || u.googleId.value == ""
  }

  /**
   * `GoogleLoginAsync`. An unverifiable token is refused. An account found
   * by email (active or not) is linked when it has no Google id yet, which
   * also marks it a Google account; an already linked account is not
   * changed. Without an account, a Google customer is created. A failed
   * lookup or write is reported as "Google login failed".
   */
  method GoogleLogin(repo: UserRepository, fetched: Option<TokenInfo>, clientId: Option<string>, now: Instant,
                     lookupFails: bool, storeFails: bool)
    returns (r: AuthResult)
    requires repo.Valid()
    modifies repo
    ensures repo.Valid()
    ensures var info := VerifyGoogleIdToken(fetched, clientId, now);
            info.None? ==> r == Denied(InvalidGoogleTokenMessage) && repo.users == old(repo.users)
    ensures VerifyGoogleIdToken(fetched, clientId, now).Some? && lookupFails ==>
              r == Denied(GoogleLoginFailedMessage) && repo.users == old(repo.users)
    ensures var info := VerifyGoogleIdToken(fetched, clientId, now);
            info.Some? && !lookupFails && IndexOfEmail(old(repo.users), info.value.email).Some? ==>
              var k := IndexOfEmail(old(repo.users), info.value.email).value;
              var u := old(repo.users)[k];
              var linked := u.(googleId := Some(info.value.id), isGoogleUser := true, updatedAt := now);
              && (!Unlinked(u) ==> r == Granted(u, now) && repo.users == old(repo.users))
              && (Unlinked(u) && storeFails ==> r == Denied(GoogleLoginFailedMessage) && repo.users == old(repo.users))
              && (Unlinked(u) && !storeFails ==> r == Granted(linked, now) && repo.users == old(repo.users)[k := linked])
    ensures var info := VerifyGoogleIdToken(fetched, clientId, now);
            info.Some? && !lookupFails && IndexOfEmail(old(repo.users), info.value.email).None? ==>
              var created := User(old(repo.nextUserId), info.value.name, info.value.email, None, Some(info.value.id),
                                  DefaultRole, true, true, now, now);
              && (storeFails ==> r == Denied(GoogleLoginFailedMessage) && repo.users == old(repo.users))
              && (!storeFails ==> r == Granted(created, now) && repo.users == old(repo.users) + [created])
  {
    var info := VerifyGoogleIdToken(fetched, clientId, now);
    if info.None? {
      return Denied(InvalidGoogleTokenMessage);
    }
    var googleUser := info.value;
    if lookupFails {
      return Denied(GoogleLoginFailedMessage);
    }
    var existing := IndexOfEmail(repo.users, googleUser.email);
    if existing.Some? {
      var user := repo.users[existing.value];
      if Unlinked(user) {
        if storeFails {
          return Denied(GoogleLoginFailedMessage);
        }
        user := user.(googleId := Some(googleUser.id), isGoogleUser := true);
        EmailFindsRow(repo.users, existing.value);
        var saved := repo.Update(user, now);
        user := saved.value;
      }
      r := Granted(user, now);
    } else {
      if storeFails {
        return Denied(GoogleLoginFailedMessage);
      }
      var created := repo.Create(User(0, googleUser.name, googleUser.email, None, Some(googleUser.id),
                                      UnsetRole, true, true, now, now), now);
      r := Granted(created.value, now);
    }
  }

  /**
   * After a Google sign-in links an active password account, password
   * sign-in for that email is refused with "use Google login".
   */
  lemma LinkedAccountRefusesPassword(users: seq<User>, k: nat, info: GoogleUserInfo, now: Instant, password: string, later: Instant)
    requires UniqueEmails(users) && k < |users|
    requires users[k].email == info.email && users[k].isActive && Unlinked(users[k])
    ensures var linked := users[k].(googleId := Some(info.id), isGoogleUser := true, updatedAt := now);
            Login(users[k := linked], LoginRequest(info.email, password), later) == Denied(UseGoogleLoginMessage)
  {
    var linked := users[k].(googleId := Some(info.id), isGoogleUser := true, updatedAt := now);
    var after := users[k := linked];
    assert UniqueEmails(after) by {
      forall i, j | 0 <= i < |after| && 0 <= j < |after| && i != j
        ensures after[i].email != after[j].email
      {
        assert after[i].email == users[i].email && after[j].email == users[j].email;
      }
    }
    GoogleAccountRefusesPassword(after, k, password, later);
  }
}
