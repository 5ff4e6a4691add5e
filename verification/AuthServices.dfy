/** The account tables as a mutable store, and the services that read and write them. */
module AuthServices {
  import opened Prelude
  import opened AuthStore
  import opened AuthSpec
  import opened AuthContracts

  class Database {
    var users: map<UserId, User>
    var identities: map<string, Identity>
    var refresh: map<string, RefreshToken>
    var verification: map<string, VerificationToken>

    constructor ()
      ensures Contents() == EMPTY_DB
    {
      users, identities, refresh, verification := map[], map[], map[], map[];
    }

    function Contents(): Db
      reads this
    {
      Db(users, identities, refresh, verification)
    }

    /** `other` is left out of the search: None searches every row. */
    method RowWithEmail(email: string, other: Option<UserId>) returns (r: Option<UserId>)
      ensures r.Some? ==> HasEmail(Contents(), r.value, email) && r != other
      ensures r.None? ==> forall u :: HasEmail(Contents(), u, email) ==> Some(u) == other
    {
      var todo := users.Keys;
      while todo != {}
        invariant todo <= users.Keys
        invariant forall u :: HasEmail(Contents(), u, email) && u !in todo ==> Some(u) == other
        decreases |todo|
      {
        var u := NextKey(todo);
        if users[u].email == email && Some(u) != other {
          return Some(u);
        }
        todo := todo - {u};
      }
      return None;
    }

    method FindUserByEmail(email: string) returns (r: Option<UserId>)
      requires UniqueEmails(Contents())
      ensures r == FindByEmail(Contents(), email)
    {
      r := RowWithEmail(email, None);
      if r.Some? {
        assert HasEmail(Contents(), r.value, email);
        assert FindByEmail(Contents(), email).Some?;
      }
    }

    method Update(id: UserId, user: User) returns (ok: bool)
      modifies this`users
      ensures ok <==> SaveUser(old(Contents()), id, user).Some?
      ensures Contents() == if ok then SaveUser(old(Contents()), id, user).value else old(Contents())
    {
      var clash := RowWithEmail(user.email, Some(id));
      if clash.Some? {
        assert clash.value != id && HasEmail(Contents(), clash.value, user.email);
        return false;
      }
      users := users[id := user];
      return true;
    }

    method DeleteByID(id: UserId)
      modifies this
      ensures Contents() == DeleteUser(old(Contents()), id)
      ensures UserDeleted(old(Contents()), Contents(), id)
    {
      users := users - {id};
      identities := map s | s in identities && identities[s].userId != id :: identities[s];
      refresh := map h | h in refresh && refresh[h].userId != id :: refresh[h];
      verification := map h | h in verification && verification[h].userId != id :: verification[h];
    }

    method CreateIdentityRow(subject: string, row: Identity) returns (ok: bool)
      modifies this`identities
      ensures ok <==> CreateIdentity(old(Contents()), subject, row).Some?
      ensures Contents() == if ok then CreateIdentity(old(Contents()), subject, row).value else old(Contents())
    {
      if subject in identities || row.userId !in users {
        return false;
      }
      var todo := identities.Keys;
      while todo != {}
        invariant Contents() == old(Contents()) && todo <= identities.Keys
        invariant forall s :: s in identities && s !in todo ==> !Clash(identities[s], row)
        decreases |todo|
      {
        var s := NextKey(todo);
        if Clash(identities[s], row) {
          assert Clash(Contents().identities[s], row);
          return false;
        }
        todo := todo - {s};
      }
      assert !IdentityConflicts(Contents(), subject, row);
      identities := identities[subject := row];
      return true;
    }

    method DeleteTokensOfUser(u: UserId)
      modifies this`verification
      ensures Contents() == DropVerification(old(Contents()), u)
    {
      verification := map h | h in verification && verification[h].userId != u :: verification[h];
    }

    /** The creation time of the user's newest verification token. */
    method FindLatestByUserID(u: UserId) returns (r: Option<int>)
      ensures r.None? <==> VerificationTokensOf(Contents(), u) == {}
      ensures r.Some? ==> exists h :: h in VerificationTokensOf(Contents(), u) && verification[h].createdAt == r.value
      ensures r.Some? ==> forall h :: h in VerificationTokensOf(Contents(), u) ==> verification[h].createdAt <= r.value
    {
      r := None;
      ghost var at := "";
      var todo := verification.Keys;
      while todo != {}
        invariant todo <= verification.Keys
        invariant r.Some? ==> at in VerificationTokensOf(Contents(), u) && verification[at].createdAt == r.value
        invariant forall h :: h in VerificationTokensOf(Contents(), u) && h !in todo
                              ==> r.Some? && verification[h].createdAt <= r.value
        decreases |todo|
      {
        var h := NextKey(todo);
        if verification[h].userId == u && (r.None? || verification[h].createdAt > r.value) {
          r := Some(verification[h].createdAt);
          at := h;
        }
        todo := todo - {h};
      }
    }

    /** Deletes the token and names its user, in one statement; nothing happens when it is absent or expired. */
    method ConsumeValidByHash(hash: string, now: int) returns (r: Option<UserId>)
      modifies this`verification
      ensures r.Some? <==> hash in old(verification) && old(verification)[hash].expiresAt > now
      ensures r.Some? ==> r.value == old(verification)[hash].userId && verification == old(verification) - {hash}
      ensures r.None? ==> verification == old(verification)
    {
      if hash !in verification || verification[hash].expiresAt <= now {
        return None;
      }
      r := Some(verification[hash].userId);
      verification := verification - {hash};
    }
  }

  class LocalAuthService {
    const db: Database
    const env: Env

    constructor (db: Database, env: Env)
      ensures this.db == db && this.env == env
    {
      this.db, this.env := db, env;
    }

    method IssueTokenPair(u: UserId, raw: string, now: int) returns (pair: TokenPair)
      modifies db`refresh
      ensures (db.Contents(), pair) == AuthSpec.IssueTokenPair(env, old(db.Contents()), u, raw, now)
      ensures SessionOpened(env, old(db.Contents()), db.Contents(), u, raw, now)
      ensures SessionFor(env, Session(u, pair), u, raw, now)
    {
      var access := AccessToken(u, now, now + env.accessExpiry);
      db.refresh := db.refresh[env.hashToken(raw) := RefreshToken(u, now + env.refreshExpiry)];
      pair := TokenPair(access, raw);
    }

    method SendVerificationEmail(u: UserId, raw: string, now: int)
      modifies db`verification
      ensures db.Contents() == SendVerification(env, old(db.Contents()), u, raw, now)
      ensures TokenIssued(env, old(db.Contents()), db.Contents(), u, raw, now)
    {
      SendIssues(env, db.Contents(), u, raw, now);
      db.DeleteTokensOfUser(u);
      db.verification := db.verification[env.hashToken(raw) := VerificationToken(u, now + VERIFICATION_EXPIRY, now)];
    }

    method Register(email: string, password: string, displayName: string,
                        id: UserId, hashed: Option<string>, raw: string, sent: bool, now: int)
        returns (r: Result<UserId, AuthError>)
      requires UniqueEmails(db.Contents())
      modifies db
      ensures Outcome(db.Contents(), r)
          == AuthSpec.Register(env, old(db.Contents()), email, password, displayName, id, hashed, raw, sent, now)
      ensures RegisterAnswers(env, old(db.Contents()), email, password, displayName, id, hashed, raw, sent, now,
                              db.Contents(), r)
    {
      RegisterExactly(env, db.Contents(), email, password, displayName, id, hashed, raw, sent, now);
      var email' := env.Normalize(email);
      var name := env.trim(displayName);
      if email' == "" {
        return Err(EmailRequired);
      }
      if ByteLength(password) < 8 {
        return Err(PasswordTooShort);
      }
      if name == "" {
        name := email';
      }
      var taken := db.FindUserByEmail(email');
      if taken.Some? {
        return Err(EmailTaken);
      }
      if hashed.None? {
        return Err(HashFailed);
      }
      db.users := db.users[id := User(email', name, "", "", hashed, false)];
      SendVerificationEmail(id, raw, now);
      if !sent {
        db.DeleteByID(id);
        return Err(EmailNotSent);
      }
      return Ok(id);
    }

    method ResendVerification(email: string, raw: string, sent: bool, now: int) returns (r: Result<(), AuthError>)
      requires UniqueEmails(db.Contents())
      modifies db
      ensures Outcome(db.Contents(), r) == AuthSpec.ResendVerification(env, old(db.Contents()), email, raw, sent, now)
      ensures ResendAnswers(env, old(db.Contents()), email, raw, sent, now, db.Contents(), r)
    {
      ResendExactly(env, db.Contents(), email, raw, sent, now);
      var email' := env.Normalize(email);
      if email' == "" {
        return Err(EmailRequired);
      }
      var owner := db.FindUserByEmail(email');
      if owner.None? {
        return Ok(());
      }
      if db.users[owner.value].emailVerified {
        return Ok(());
      }
      var latest := db.FindLatestByUserID(owner.value);
      if latest.Some? && now - latest.value < RESEND_COOLDOWN {
        return Err(RateLimited);
      }
      SendVerificationEmail(owner.value, raw, now);
      return if sent then Ok(()) else Err(EmailNotSent);
    }

    method Login(email: string, password: string, raw: string, now: int) returns (r: Result<Session, AuthError>)
      requires UniqueEmails(db.Contents())
      modifies db
      ensures Outcome(db.Contents(), r) == AuthSpec.Login(env, old(db.Contents()), email, password, raw, now)
      ensures LoginAnswers(env, old(db.Contents()), email, password, raw, now, db.Contents(), r)
    {
      LoginExactly(env, db.Contents(), email, password, raw, now);
      var owner := db.FindUserByEmail(env.Normalize(email));
      if owner.None? {
        return Err(InvalidCredentials);
      }
      var user := db.users[owner.value];
      if user.passwordHash.None? {
        return Err(NoPasswordSet);
      }
      if !env.passwordMatches(user.passwordHash.value, password) {
        return Err(InvalidCredentials);
      }
      if !user.emailVerified {
        return Err(EmailNotVerified);
      }
      var pair := IssueTokenPair(owner.value, raw, now);
      return Ok(Session(owner.value, pair));
    }

    method VerifyEmail(rawToken: string, raw: string, now: int) returns (r: Result<Session, AuthError>)
      modifies db
      ensures Outcome(db.Contents(), r) == AuthSpec.VerifyEmail(env, old(db.Contents()), rawToken, raw, now)
      ensures VerifyAnswers(env, old(db.Contents()), rawToken, raw, now, db.Contents(), r)
    {
      VerifyExactly(env, db.Contents(), rawToken, raw, now);
      var consumed := db.ConsumeValidByHash(env.hashToken(rawToken), now);
      if consumed.None? {
        return Err(InvalidVerificationToken);
      }
      var u := consumed.value;
      if u !in db.users {
        return Err(UserNotFound);
      }
      db.users := db.users[u := db.users[u].(emailVerified := true)];
      var pair := IssueTokenPair(u, raw, now);
      return Ok(Session(u, pair));
    }

    method Refresh(rawToken: string, raw: string, now: int) returns (r: Result<Session, AuthError>)
      modifies db
      ensures Outcome(db.Contents(), r) == AuthSpec.Refresh(env, old(db.Contents()), rawToken, raw, now)
      ensures RefreshAnswers(env, old(db.Contents()), rawToken, raw, now, db.Contents(), r)
    {
      RefreshExactly(env, db.Contents(), rawToken, raw, now);
      var hash := env.hashToken(rawToken);
      if hash !in db.refresh {
        return Err(InvalidCredentials);
      }
      var stored := db.refresh[hash];
      if now > stored.expiresAt {
        db.refresh := db.refresh - {hash};
        return Err(InvalidCredentials);
      }
      db.refresh := db.refresh - {hash};
      var pair := IssueTokenPair(stored.userId, raw, now);
      return Ok(Session(stored.userId, pair));
    }

    method Logout(rawToken: string)
      modifies db
      ensures db.Contents() == AuthSpec.Logout(env, old(db.Contents()), rawToken)
      ensures db.refresh == old(db.refresh) - {env.hashToken(rawToken)}
      ensures db.users == old(db.users) && db.identities == old(db.identities)
      ensures db.verification == old(db.verification)
    {
      db.refresh := db.refresh - {env.hashToken(rawToken)};
    }

    method ConfirmAccountLink(pendingToken: string, password: string, raw: string, now: int)
        returns (r: Result<Session, AuthError>)
      requires UniqueEmails(db.Contents())
      modifies db
      ensures Outcome(db.Contents(), r)
          == AuthSpec.ConfirmAccountLink(env, old(db.Contents()), pendingToken, password, raw, now)
      ensures LinkAnswers(env, old(db.Contents()), pendingToken, password, raw, now, db.Contents(), r)
    {
      LinkExactly(env, db.Contents(), pendingToken, password, raw, now);
      var claims := env.linkClaims(pendingToken, now);
      if claims.None? || claims.value.subject == "" || claims.value.email == "" {
        return Err(InvalidPendingToken);
      }
      var subject, email := claims.value.subject, claims.value.email;
      var owner := db.FindUserByEmail(email);
      if owner.None? {
        return Err(InvalidPendingToken);
      }
      var u := owner.value;
      var user := db.users[u];
      if user.passwordHash.None? {
        return Err(NoPasswordSet);
      }
      if !env.passwordMatches(user.passwordHash.value, password) {
        return Err(InvalidCredentials);
      }
      var provider := ProviderOf(env.upper, subject);
      if provider.None? {
        return Err(InvalidPendingToken);
      }
      var linked := db.CreateIdentityRow(subject, Identity(u, provider.value, email, false));
      if !linked {
        if subject !in db.identities {
          return Err(IdentityRefused);
        }
        if db.identities[subject].userId != u {
          return Err(LinkConflict);
        }
      }
      if !user.emailVerified {
        db.users := db.users[u := user.(emailVerified := true)];
      }
      assert db.users == db.users[u := user.(emailVerified := true)];
      var pair := IssueTokenPair(u, raw, now);
      return Ok(Session(u, pair));
    }

    method SetPassword(u: UserId, newPassword: string, hashed: Option<string>) returns (r: Result<(), AuthError>)
      modifies db
      ensures Outcome(db.Contents(), r) == AuthSpec.SetPassword(old(db.Contents()), u, newPassword, hashed)
      ensures SetPasswordAnswers(old(db.Contents()), u, newPassword, hashed, db.Contents(), r)
    {
      SetPasswordExactly(db.Contents(), u, newPassword, hashed);
      if ByteLength(newPassword) < 8 {
        return Err(PasswordTooShort);
      }
      if u !in db.users {
        return Err(UserNotFound);
      }
      if db.users[u].passwordHash.Some? {
        return Err(PasswordAlreadySet);
      }
      if hashed.None? {
        return Err(HashFailed);
      }
      db.users := db.users[u := db.users[u].(passwordHash := hashed)];
      return Ok(());
    }
  }

  class UserService {
    const db: Database
    const env: Env

    constructor (db: Database, env: Env)
      ensures this.db == db && this.env == env
    {
      this.db, this.env := db, env;
    }

    /** Saves the row only when a reported field is present and different. */
    method UpdateUserProfile(u: UserId, email: string, displayName: string, avatarUrl: string) returns (ok: bool)
      requires u in db.users
      modifies db`users
      ensures var user := WithProfile(old(db.users)[u], email, displayName, avatarUrl);
              var saved := SaveUser(old(db.Contents()), u, user);
              && (user == old(db.users)[u] ==> ok && db.Contents() == old(db.Contents()))
              && (user != old(db.users)[u] ==>
                    (ok <==> saved.Some?) && db.Contents() == if saved.Some? then saved.value else old(db.Contents()))
    {
      var changed := false;
      var user := db.users[u];
      if email != "" && user.email != email {
        user := user.(email := email);
        changed := true;
      }
      if displayName != "" && user.displayName != displayName {
        user := user.(displayName := displayName);
        changed := true;
      }
      if avatarUrl != "" && user.avatarUrl != avatarUrl {
        user := user.(avatarUrl := avatarUrl);
        changed := true;
      }
      assert user == WithProfile(db.users[u], email, displayName, avatarUrl);
      if !changed {
        return true;
      }
      ok := db.Update(u, user);
    }

    method UpdateProfile(u: UserId, displayName: string, avatarUrl: Option<string>, statusText: Option<string>)
        returns (r: Result<User, AuthError>)
      modifies db`users
      ensures Outcome(db.Contents(), r)
           == AuthSpec.UpdateProfile(env, old(db.Contents()), u, displayName, avatarUrl, statusText)
      ensures UniqueEmails(old(db.Contents())) ==>
                ProfileAnswers(env, old(db.Contents()), u, displayName, avatarUrl, statusText, db.Contents(), r)
    {
      if UniqueEmails(db.Contents()) {
        ProfileExactly(env, db.Contents(), u, displayName, avatarUrl, statusText);
      }
      if u == NIL_USER {
        return Err(UserNotFound);
      }
      var name := env.trim(displayName);
      if ByteLength(name) > 100 {
        return Err(InvalidInput);
      }
      var avatar, status := "", "";
      if avatarUrl.Some? {
        avatar := env.trim(avatarUrl.value);
        if avatar != "" && !env.isWebUrl(avatar) {
          return Err(InvalidInput);
        }
      }
      if statusText.Some? {
        status := env.trim(statusText.value);
        if ByteLength(status) > 150 {
          return Err(InvalidInput);
        }
      }
      if u !in db.users {
        return Err(UserNotFound);
      }
      var changed := false;
      var user := db.users[u];
      if name != "" && user.displayName != name {
        user := user.(displayName := name);
        changed := true;
      }
      if avatarUrl.Some? && user.avatarUrl != avatar {
        user := user.(avatarUrl := avatar);
        changed := true;
      }
      if statusText.Some? && user.statusText != status {
        user := user.(statusText := status);
        changed := true;
      }
      assert user == WithEdit(db.users[u], ProfileEdit(name, Trimmed(env, avatarUrl), Trimmed(env, statusText)));
      if !changed {
        return Ok(user);
      }
      var ok := db.Update(u, user);
      return if ok then Ok(user) else Err(Refused);
    }

    method SyncAuth0User(subject: string, email: string, displayName: string, avatarUrl: string, emailVerified: bool,
        id: UserId)
        returns (r: Result<UserId, AuthError>)
      requires UniqueEmails(db.Contents())
      modifies db
      ensures Outcome(db.Contents(), r)
          == AuthSpec.SyncAuth0User(env, old(db.Contents()), subject, email, displayName, avatarUrl, emailVerified, id)
      ensures SyncAnswers(env, old(db.Contents()), subject, email, displayName, avatarUrl, emailVerified, id,
                          db.Contents(), r)
    {
      SyncExactly(env, db.Contents(), subject, email, displayName, avatarUrl, emailVerified, id);
      var subject', email' := env.trim(subject), env.Normalize(email);
      var name, avatar := env.trim(displayName), env.trim(avatarUrl);
      if subject' == "" {
        return Err(SubjectRequired);
      }
      var provider := ProviderOf(env.upper, subject');
      if provider.None? {
        return Err(InvalidSubject);
      }
      if !emailVerified {
        return Err(ProviderEmailNotVerified);
      }
      if subject' in db.identities {
        var u := db.identities[subject'].userId;
        if u !in db.users {
          return Err(UserNotFound);
        }
        var ok := UpdateUserProfile(u, email', name, avatar);
        return if ok then Ok(u) else Err(Refused);
      }
      if email' == "" {
        return Err(EmailRequired);
      }
      var owner := db.FindUserByEmail(email');
      if owner.Some? {
        return Err(LinkRequired);
      }
      if name == "" {
        name := email';
      }
      db.users := db.users[id := User(email', name, avatar, "", None, true)];
      var linked := db.CreateIdentityRow(subject', Identity(id, provider.value, email', true));
      return if linked then Ok(id) else Err(IdentityRefused);
    }
  }
}
