/**
 * What each account call promises, said of the tables before and after and of the answer, not of how the call goes
 * about it: when exactly it succeeds, when exactly it is refused with which error, and what it changes.
 */
module AuthContracts {
  import opened Prelude
  import opened AuthStore
  import opened AuthSpec

  const ONE_MINUTE := 60_000_000_000
  const ONE_DAY := 86_400_000_000_000

  // ----- changes -----

  /** One session more, and nothing else. */
  ghost predicate SessionOpened(env: Env, db: Db, db': Db, u: UserId, raw: string, now: int) {
    && db'.users == db.users && db'.identities == db.identities && db'.verification == db.verification
    && db'.refresh == db.refresh[env.hashToken(raw) := RefreshToken(u, now + env.refreshExpiry)]
  }

  ghost predicate SessionFor(env: Env, session: Session, u: UserId, raw: string, now: int) {
    && session.user == u && session.pair.refresh == raw
    && session.pair.access.subject == u && session.pair.access.issuedAt == now
    && session.pair.access.expiresAt == now + env.accessExpiry
  }

  /** The user has the new token, for a day, and no other; everybody else keeps theirs. */
  ghost predicate TokenIssued(env: Env, db: Db, db': Db, u: UserId, raw: string, now: int) {
    var hash := env.hashToken(raw);
    && hash in db'.verification && db'.verification[hash] == VerificationToken(u, now + ONE_DAY, now)
    && (forall h :: h != hash ==>
          (h in db'.verification <==> h in db.verification && db.verification[h].userId != u))
    && (forall h :: h != hash && h in db'.verification && h in db.verification ==>
          db'.verification[h] == db.verification[h])
  }

  /** Exactly this row of the users table may be another. */
  predicate OnlyUser(db: Db, db': Db, u: UserId) {
    u in db'.users && db'.users == db.users[u := db'.users[u]]
  }

  /** Nothing refers to the id, and the hash is not in use. */
  ghost predicate IsNew(db: Db, id: UserId, hash: string) {
    && id !in db.users && hash !in db.verification
    && (forall s :: s in db.identities ==> db.identities[s].userId != id)
    && (forall h :: h in db.refresh ==> db.refresh[h].userId != id)
    && (forall h :: h in db.verification ==> db.verification[h].userId != id)
  }

  /** The user is gone and so is everything of the user's; all the rest is as it was. */
  ghost predicate UserDeleted(db: Db, db': Db, id: UserId) {
    && db'.users == db.users - {id}
    && (forall s :: s in db'.identities <==> s in db.identities && db.identities[s].userId != id)
    && (forall s :: s in db'.identities && s in db.identities ==> db'.identities[s] == db.identities[s])
    && (forall h :: h in db'.refresh <==> h in db.refresh && db.refresh[h].userId != id)
    && (forall h :: h in db'.refresh && h in db.refresh ==> db'.refresh[h] == db.refresh[h])
    && (forall h :: h in db'.verification <==> h in db.verification && db.verification[h].userId != id)
    && (forall h :: h in db'.verification && h in db.verification ==> db'.verification[h] == db.verification[h])
  }

  lemma DeleteUserExactly(db: Db, id: UserId)
    ensures UserDeleted(db, DeleteUser(db, id), id)
  {
  }

  predicate IsFree(db: Db, email: string) {
    forall u :: u in db.users ==> db.users[u].email != email
  }

  // ----- the provider of a subject -----

  /** `p` is what stands before the first bar. */
  ghost predicate BeforeBar(subject: string, p: string) {
    '|' !in p && exists rest: string :: subject == p + "|" + rest
  }

  lemma ProviderExactly(upper: string -> string, p: string, rest: string)
    requires '|' !in p
    ensures ProviderOf(upper, p + "|" + rest) == if p == "" then None else Some(upper(p))
  {
    var subject := p + "|" + rest;
    var i := IndexOfBar(subject);
    assert subject[|p|] == '|';
    assert forall j :: 0 <= j < |p| ==> subject[j] == p[j] && p[j] in p;
    assert subject[..|p|] == p;
  }

  lemma NoProviderExactly(upper: string -> string, subject: string)
    ensures ProviderOf(upper, subject) == None <==> '|' !in subject || subject[0] == '|'
  {
    var i := IndexOfBar(subject);
    if '|' in subject {
      var j :| 0 <= j < |subject| && subject[j] == '|';
    }
  }

  /** A subject that names a provider splits at its first bar. */
  lemma SplitsAtBar(upper: string -> string, subject: string) returns (p: string)
    requires '|' in subject && subject[0] != '|'
    ensures p != "" && BeforeBar(subject, p) && ProviderOf(upper, subject) == Some(upper(p))
  {
    var i := IndexOfBar(subject);
    var j :| 0 <= j < |subject| && subject[j] == '|';
    p := subject[..i];
    assert subject == p + "|" + subject[i + 1..];
    ProviderExactly(upper, p, subject[i + 1..]);
  }

  // ----- login -----

  predicate HasPassword(env: Env, user: User, password: string) {
    user.passwordHash.Some? && env.passwordMatches(user.passwordHash.value, password)
  }

  predicate HasOtherPassword(env: Env, user: User, password: string) {
    user.passwordHash.Some? && !env.passwordMatches(user.passwordHash.value, password)
  }

  ghost predicate LoginAnswers(env: Env, db: Db, email: string, password: string, raw: string, now: int,
                               db': Db, reply: Result<Session, AuthError>) {
    var email := env.lower(env.trim(email));
    && (reply.Ok? <==>
          exists u :: HasEmail(db, u, email) && HasPassword(env, db.users[u], password) && db.users[u].emailVerified)
    && (reply == Err(EmailNotVerified) <==>
          exists u :: HasEmail(db, u, email) && HasPassword(env, db.users[u], password) && !db.users[u].emailVerified)
    && (reply == Err(NoPasswordSet) <==> exists u :: HasEmail(db, u, email) && db.users[u].passwordHash.None?)
    && (reply == Err(InvalidCredentials) <==>
          IsFree(db, email) || exists u :: HasEmail(db, u, email) && HasOtherPassword(env, db.users[u], password))
    && (reply.Ok? ==>
          && HasEmail(db, reply.value.user, email)
          && SessionFor(env, reply.value, reply.value.user, raw, now)
          && SessionOpened(env, db, db', reply.value.user, raw, now))
    && (reply.Err? ==> db' == db)
  }

  lemma LoginExactly(env: Env, db: Db, email: string, password: string, raw: string, now: int)
    requires UniqueEmails(db)
    ensures var outcome := Login(env, db, email, password, raw, now);
            LoginAnswers(env, db, email, password, raw, now, outcome.db, outcome.reply)
  {
    EmailOwner(db, env.Normalize(email));
  }

  /** Whoever has the email is the one the lookup finds. */
  lemma EmailOwner(db: Db, email: string)
    requires UniqueEmails(db)
    ensures forall u :: HasEmail(db, u, email) <==> FindByEmail(db, email) == Some(u)
    ensures IsFree(db, email) <==> FindByEmail(db, email).None?
  {
    forall u | HasEmail(db, u, email) ensures FindByEmail(db, email) == Some(u) {
    }
    if !IsFree(db, email) {
      var u :| u in db.users && db.users[u].email == email;
      assert HasEmail(db, u, email);
    }
  }

  // ----- registration -----

  ghost predicate RegisterAnswers(env: Env, db: Db, email: string, password: string, displayName: string, id: UserId,
                                  hashed: Option<string>, raw: string, sent: bool, now: int,
                                  db': Db, reply: Result<UserId, AuthError>) {
    var email, name := env.lower(env.trim(email)), env.trim(displayName);
    var long := ByteLength(password) >= 8;
    && (reply == Err(EmailRequired) <==> email == "")
    && (reply == Err(PasswordTooShort) <==> email != "" && !long)
    && (reply == Err(EmailTaken) <==> email != "" && long && !IsFree(db, email))
    && (reply == Err(HashFailed) <==> email != "" && long && IsFree(db, email) && hashed.None?)
    && (reply == Err(EmailNotSent) <==> email != "" && long && IsFree(db, email) && hashed.Some? && !sent)
    && (reply.Ok? <==> email != "" && long && IsFree(db, email) && hashed.Some? && sent)
    && (reply.Ok? ==>
          && reply.value == id && OnlyUser(db, db', id)
          && db'.users[id].email == email && db'.users[id].displayName == (if name == "" then email else name)
          && db'.users[id].avatarUrl == db'.users[id].statusText == ""
          && db'.users[id].passwordHash == hashed && !db'.users[id].emailVerified
          && TokenIssued(env, db, db', id, raw, now)
          && db'.identities == db.identities && db'.refresh == db.refresh)
    && (reply.Err? && (reply.error.EmailNotSent? ==> IsNew(db, id, env.hashToken(raw))) ==> db' == db)
  }

  lemma RegisterExactly(env: Env, db: Db, email: string, password: string, displayName: string, id: UserId,
                        hashed: Option<string>, raw: string, sent: bool, now: int)
    requires UniqueEmails(db)
    ensures var outcome := Register(env, db, email, password, displayName, id, hashed, raw, sent, now);
            RegisterAnswers(env, db, email, password, displayName, id, hashed, raw, sent, now,
                            outcome.db, outcome.reply)
  {
    EmailOwner(db, env.Normalize(email));
    var outcome := Register(env, db, email, password, displayName, id, hashed, raw, sent, now);
    if outcome.reply.Ok? {
      SendIssues(env, db.(users := outcome.db.users), id, raw, now);
    } else if outcome.reply == Err(EmailNotSent) && IsNew(db, id, env.hashToken(raw)) {
      var row := Register(env, db, email, password, displayName, id, hashed, raw, true, now).db.users[id];
      RollsBack(env, db, id, row, raw, now);
    }
  }

  /** Deleting a user that was just created, and everything of it, leaves what was there before. */
  lemma RollsBack(env: Env, db: Db, id: UserId, row: User, raw: string, now: int)
    requires IsNew(db, id, env.hashToken(raw))
    ensures DeleteUser(SendVerification(env, db.(users := db.users[id := row]), id, raw, now), id) == db
  {
    var db' := DeleteUser(SendVerification(env, db.(users := db.users[id := row]), id, raw, now), id);
    assert db'.users == db.users && db'.identities == db.identities;
    assert db'.refresh == db.refresh && db'.verification == db.verification;
  }

  lemma SendIssues(env: Env, db: Db, u: UserId, raw: string, now: int)
    ensures var db' := SendVerification(env, db, u, raw, now);
            && TokenIssued(env, db, db', u, raw, now)
            && db'.users == db.users && db'.identities == db.identities && db'.refresh == db.refresh
  {
  }

  // ----- resending -----

  ghost predicate Recent(db: Db, u: UserId, now: int) {
    exists h ::
      h in db.verification && db.verification[h].userId == u && now - db.verification[h].createdAt < ONE_MINUTE
  }

  ghost predicate Awaits(db: Db, u: UserId, email: string) {
    HasEmail(db, u, email) && !db.users[u].emailVerified
  }

  ghost predicate ResendAnswers(env: Env, db: Db, email: string, raw: string, sent: bool, now: int,
                                db': Db, reply: Result<(), AuthError>) {
    var email := env.lower(env.trim(email));
    && (reply == Err(EmailRequired) <==> email == "")
    && (reply == Err(RateLimited) <==> email != "" && exists u :: Awaits(db, u, email) && Recent(db, u, now))
    && (reply == Err(EmailNotSent) <==>
          email != "" && !sent && exists u :: Awaits(db, u, email) && !Recent(db, u, now))
    && (reply.Ok? <==>
          && email != ""
          && ((forall u :: !Awaits(db, u, email))
              || (sent && exists u :: Awaits(db, u, email) && !Recent(db, u, now))))
    && (forall u :: email != "" && Awaits(db, u, email) && !Recent(db, u, now) ==>
          && TokenIssued(env, db, db', u, raw, now)
          && db'.users == db.users && db'.identities == db.identities && db'.refresh == db.refresh)
    && ((email == "" || forall u :: Awaits(db, u, email) ==> Recent(db, u, now)) ==> db' == db)
  }

  lemma ResendExactly(env: Env, db: Db, email: string, raw: string, sent: bool, now: int)
    requires UniqueEmails(db)
    ensures var outcome := ResendVerification(env, db, email, raw, sent, now);
            ResendAnswers(env, db, email, raw, sent, now, outcome.db, outcome.reply)
  {
    var owner := FindByEmail(db, env.Normalize(email));
    EmailOwner(db, env.Normalize(email));
    if owner.Some? {
      CoolsDown(db, owner.value, now);
      SendIssues(env, db, owner.value, raw, now);
    }
  }

  lemma CoolsDown(db: Db, u: UserId, now: int)
    ensures CoolingDown(db, u, now) <==> Recent(db, u, now)
  {
    if Recent(db, u, now) {
      var h :| h in db.verification && db.verification[h].userId == u
               && now - db.verification[h].createdAt < ONE_MINUTE;
      assert h in VerificationTokensOf(db, u);
    }
  }

  // ----- verification -----

  ghost predicate VerifyAnswers(env: Env, db: Db, token: string, raw: string, now: int,
                                db': Db, reply: Result<Session, AuthError>) {
    var hash := env.hashToken(token);
    var live := hash in db.verification && now < db.verification[hash].expiresAt;
    && (reply == Err(InvalidVerificationToken) <==> !live)
    && (reply == Err(UserNotFound) <==> live && db.verification[hash].userId !in db.users)
    && (reply.Ok? <==> live && db.verification[hash].userId in db.users)
    && (reply.Ok? ==>
          var u := db.verification[hash].userId;
          && SessionFor(env, reply.value, u, raw, now)
          && OnlyUser(db, db', u) && db'.users[u] == db.users[u].(emailVerified := true)
          && db'.verification == db.verification - {hash} && db'.identities == db.identities
          && db'.refresh == db.refresh[env.hashToken(raw) := RefreshToken(u, now + env.refreshExpiry)])
    && (!live ==> db' == db)
  }

  lemma VerifyExactly(env: Env, db: Db, token: string, raw: string, now: int)
    ensures var outcome := VerifyEmail(env, db, token, raw, now);
            VerifyAnswers(env, db, token, raw, now, outcome.db, outcome.reply)
  {
  }

  // ----- refresh -----

  ghost predicate RefreshAnswers(env: Env, db: Db, token: string, raw: string, now: int,
                                 db': Db, reply: Result<Session, AuthError>) {
    var hash := env.hashToken(token);
    && (reply.Ok? <==> hash in db.refresh && now <= db.refresh[hash].expiresAt)
    && (reply.Err? ==> reply.error == InvalidCredentials && db'.refresh == db.refresh - {hash})
    && (reply.Ok? ==>
          var u := db.refresh[hash].userId;
          && SessionFor(env, reply.value, u, raw, now)
          && db'.refresh == (db.refresh - {hash})[env.hashToken(raw) := RefreshToken(u, now + env.refreshExpiry)])
    && db'.users == db.users && db'.identities == db.identities && db'.verification == db.verification
  }

  lemma RefreshExactly(env: Env, db: Db, token: string, raw: string, now: int)
    ensures var outcome := Refresh(env, db, token, raw, now);
            RefreshAnswers(env, db, token, raw, now, outcome.db, outcome.reply)
  {
    var hash := env.hashToken(token);
    if hash !in db.refresh {
      assert db.refresh - {hash} == db.refresh;
    }
  }

  // ----- linking -----

  /** The claims are there and name a subject and an email. */
  predicate ClaimsHold(env: Env, token: string, now: int) {
    var claims := env.linkClaims(token, now);
    claims.Some? && claims.value.subject != "" && claims.value.email != ""
  }

  /** `u` is the claimed account and the password is its. */
  ghost predicate Consents(env: Env, db: Db, claims: LinkClaims, password: string, u: UserId) {
    HasEmail(db, u, claims.email) && HasPassword(env, db.users[u], password)
  }

  predicate NamesProvider(subject: string) {
    '|' in subject && subject[0] != '|'
  }

  /** The user has an identity of this provider already. */
  ghost predicate HasProvider(db: Db, u: UserId, provider: string) {
    exists s :: s in db.identities && db.identities[s].userId == u && db.identities[s].provider == provider
  }

  ghost predicate LinkAnswers(env: Env, db: Db, token: string, password: string, raw: string, now: int,
                              db': Db, reply: Result<Session, AuthError>) {
    if !ClaimsHold(env, token, now) then reply == Err(InvalidPendingToken) && db' == db
    else
      var claims := env.linkClaims(token, now).value;
      && (reply == Err(NoPasswordSet) <==>
            exists u :: HasEmail(db, u, claims.email) && db.users[u].passwordHash.None?)
      && (reply == Err(InvalidCredentials) <==>
            exists u :: HasEmail(db, u, claims.email) && HasOtherPassword(env, db.users[u], password))
      && (reply == Err(InvalidPendingToken) <==>
            || IsFree(db, claims.email)
            || (!NamesProvider(claims.subject) && exists u :: Consents(env, db, claims, password, u)))
      && (reply.Err? ==> db' == db)
      && forall u, p :: Consents(env, db, claims, password, u) && p != "" && BeforeBar(claims.subject, p) ==>
           LinkedAs(env, db, claims, u, env.upper(p), raw, now, db', reply)
  }

  /** With consent given: who has the subject, or has an identity of the provider, decides. */
  ghost predicate LinkedAs(env: Env, db: Db, claims: LinkClaims, u: UserId, provider: string, raw: string, now: int,
                           db': Db, reply: Result<Session, AuthError>) {
    var subject := claims.subject;
    && (reply == Err(LinkConflict) <==> subject in db.identities && db.identities[subject].userId != u)
    && (reply == Err(IdentityRefused) <==> subject !in db.identities && HasProvider(db, u, provider))
    && (reply.Ok? <==>
          if subject in db.identities then db.identities[subject].userId == u else !HasProvider(db, u, provider))
    && (reply.Ok? ==>
          && SessionFor(env, reply.value, u, raw, now) && u in db.users
          && OnlyUser(db, db', u) && db'.users[u] == db.users[u].(emailVerified := true)
          && subject in db'.identities && db'.identities == db.identities[subject := db'.identities[subject]]
          && (subject in db.identities ==> db'.identities == db.identities)
          && (subject !in db.identities ==> db'.identities[subject] == Identity(u, provider, claims.email, false))
          && db'.verification == db.verification
          && db'.refresh == db.refresh[env.hashToken(raw) := RefreshToken(u, now + env.refreshExpiry)])
  }

  lemma LinkExactly(env: Env, db: Db, token: string, password: string, raw: string, now: int)
    requires UniqueEmails(db)
    ensures var outcome := ConfirmAccountLink(env, db, token, password, raw, now);
            LinkAnswers(env, db, token, password, raw, now, outcome.db, outcome.reply)
  {
    if ClaimsHold(env, token, now) {
      var claims := env.linkClaims(token, now).value;
      var outcome := ConfirmAccountLink(env, db, token, password, raw, now);
      EmailOwner(db, claims.email);
      NoProviderExactly(env.upper, claims.subject);
      var owner := FindByEmail(db, claims.email);
      if owner.Some? && HasPassword(env, db.users[owner.value], password) {
        assert Consents(env, db, claims, password, owner.value);
      }
      forall u, p | Consents(env, db, claims, password, u) && p != "" && BeforeBar(claims.subject, p)
        ensures LinkedAs(env, db, claims, u, env.upper(p), raw, now, outcome.db, outcome.reply)
      {
        ConsentLinks(env, db, token, password, raw, now, u, p);
      }
    }
  }

  lemma ConsentLinks(env: Env, db: Db, token: string, password: string, raw: string, now: int, u: UserId, p: string)
    requires UniqueEmails(db) && ClaimsHold(env, token, now) && p != ""
    requires Consents(env, db, env.linkClaims(token, now).value, password, u)
    requires BeforeBar(env.linkClaims(token, now).value.subject, p)
    ensures var claims := env.linkClaims(token, now).value;
            var outcome := ConfirmAccountLink(env, db, token, password, raw, now);
            LinkedAs(env, db, claims, u, env.upper(p), raw, now, outcome.db, outcome.reply)
  {
    var claims := env.linkClaims(token, now).value;
    var rest: string :| claims.subject == p + "|" + rest;
    ProviderExactly(env.upper, p, rest);
    EmailOwner(db, claims.email);
    InsertExactly(db, claims.subject, Identity(u, env.upper(p), claims.email, false));
  }

  /** When the schema lets an identity in. */
  lemma InsertExactly(db: Db, subject: string, row: Identity)
    ensures CreateIdentity(db, subject, row).Some? <==>
            && subject !in db.identities && row.userId in db.users && !HasProvider(db, row.userId, row.provider)
            && (row.isPrimary ==>
                  forall s :: s in db.identities && db.identities[s].userId == row.userId ==>
                    !db.identities[s].isPrimary)
  {
  }

  // ----- passwords -----

  ghost predicate SetPasswordAnswers(db: Db, u: UserId, password: string, hashed: Option<string>,
                                     db': Db, reply: Result<(), AuthError>) {
    var long := ByteLength(password) >= 8;
    && (reply == Err(PasswordTooShort) <==> !long)
    && (reply == Err(UserNotFound) <==> long && u !in db.users)
    && (reply == Err(PasswordAlreadySet) <==> long && u in db.users && db.users[u].passwordHash.Some?)
    && (reply == Err(HashFailed) <==> long && u in db.users && db.users[u].passwordHash.None? && hashed.None?)
    && (reply.Ok? <==> long && u in db.users && db.users[u].passwordHash.None? && hashed.Some?)
    && (reply.Ok? ==> OnlyUser(db, db', u) && db'.users[u] == db.users[u].(passwordHash := hashed))
    && (reply.Err? ==> db'.users == db.users)
    && db'.identities == db.identities && db'.refresh == db.refresh && db'.verification == db.verification
  }

  lemma SetPasswordExactly(db: Db, u: UserId, password: string, hashed: Option<string>)
    ensures var outcome := SetPassword(db, u, password, hashed);
            SetPasswordAnswers(db, u, password, hashed, outcome.db, outcome.reply)
  {
  }

  // ----- profiles -----

  predicate AcceptableProfile(env: Env, displayName: string, avatarUrl: Option<string>, statusText: Option<string>) {
    && ByteLength(env.trim(displayName)) <= 100
    && (avatarUrl.Some? ==> env.trim(avatarUrl.value) == "" || env.isWebUrl(env.trim(avatarUrl.value)))
    && (statusText.Some? ==> ByteLength(env.trim(statusText.value)) <= 150)
  }

  ghost predicate ProfileAnswers(env: Env, db: Db, u: UserId, displayName: string, avatarUrl: Option<string>,
                                 statusText: Option<string>, db': Db, reply: Result<User, AuthError>) {
    var ok := AcceptableProfile(env, displayName, avatarUrl, statusText);
    && (reply == Err(InvalidInput) <==> u != 0 && !ok)
    && (reply == Err(UserNotFound) <==> u == 0 || (ok && u !in db.users))
    && (reply.Ok? <==> u != 0 && ok && u in db.users)
    && (reply.Err? ==> db' == db)
    && (reply.Ok? ==>
          && OnlyUser(db, db', u) && db'.users[u] == reply.value
          && db'.users[u].displayName
             == (if env.trim(displayName) != "" then env.trim(displayName) else db.users[u].displayName)
          && db'.users[u].avatarUrl
             == (if avatarUrl.Some? then env.trim(avatarUrl.value) else db.users[u].avatarUrl)
          && db'.users[u].statusText
             == (if statusText.Some? then env.trim(statusText.value) else db.users[u].statusText)
          && SameAccount(db.users[u], db'.users[u])
          && db'.identities == db.identities && db'.refresh == db.refresh && db'.verification == db.verification)
  }

  predicate SameAccount(a: User, b: User) {
    a.email == b.email && a.passwordHash == b.passwordHash && a.emailVerified == b.emailVerified
  }

  lemma ProfileExactly(env: Env, db: Db, u: UserId, displayName: string, avatarUrl: Option<string>,
                       statusText: Option<string>)
    requires UniqueEmails(db)
    ensures var outcome := UpdateProfile(env, db, u, displayName, avatarUrl, statusText);
            ProfileAnswers(env, db, u, displayName, avatarUrl, statusText, outcome.db, outcome.reply)
  {
    var checked := CheckProfile(env, u, displayName, avatarUrl, statusText);
    if checked.Ok? && u in db.users {
      var row := WithEdit(db.users[u], checked.value);
      assert forall v :: HasEmail(db, v, row.email) ==> v == u;
      assert db.users[u := db.users[u]] == db.users;
    }
  }

  // ----- logging in through a provider -----

  ghost predicate SyncAnswers(env: Env, db: Db, subject: string, email: string, displayName: string,
                              avatarUrl: string, emailVerified: bool, id: UserId,
                              db': Db, reply: Result<UserId, AuthError>) {
    var subject, email := env.trim(subject), env.lower(env.trim(email));
    && (reply == Err(SubjectRequired) <==> subject == "")
    && (reply == Err(InvalidSubject) <==> subject != "" && !NamesProvider(subject))
    && (reply == Err(ProviderEmailNotVerified) <==> NamesProvider(subject) && !emailVerified)
    && (NamesProvider(subject) && emailVerified ==>
          if subject in db.identities then
            SyncKnown(db, db.identities[subject].userId, email, env.trim(displayName), env.trim(avatarUrl), db', reply)
          else SyncNew(env, db, subject, email, env.trim(displayName), env.trim(avatarUrl), id, db', reply))
    && (!NamesProvider(subject) || !emailVerified ==> db' == db)
  }

  /** The user the subject has: the fields reported replace what is stored, unless the email is somebody else's. */
  ghost predicate SyncKnown(db: Db, u: UserId, email: string, name: string, avatar: string,
                            db': Db, reply: Result<UserId, AuthError>) {
    && (reply == Err(UserNotFound) <==> u !in db.users)
    && (u in db.users ==>
          var taken := email != "" && exists v :: v != u && HasEmail(db, v, email);
          && (reply == Err(Refused) <==> taken)
          && (reply == Ok(u) <==> !taken)
          && (!taken ==>
                && OnlyUser(db, db', u)
                && db'.users[u].email == (if email != "" then email else db.users[u].email)
                && db'.users[u].displayName == (if name != "" then name else db.users[u].displayName)
                && db'.users[u].avatarUrl == (if avatar != "" then avatar else db.users[u].avatarUrl)
                && db'.users[u].statusText == db.users[u].statusText
                && db'.users[u].passwordHash == db.users[u].passwordHash
                && db'.users[u].emailVerified == db.users[u].emailVerified))
    && (reply.Err? ==> db'.users == db.users)
    && db'.identities == db.identities && db'.refresh == db.refresh && db'.verification == db.verification
  }

  /** A first login: with a free email it creates one verified user and its primary identity. */
  ghost predicate SyncNew(env: Env, db: Db, subject: string, email: string, name: string, avatar: string, id: UserId,
                          db': Db, reply: Result<UserId, AuthError>) {
    && (reply == Err(EmailRequired) <==> email == "")
    && (reply == Err(LinkRequired) <==> email != "" && !IsFree(db, email))
    && (email == "" || !IsFree(db, email) ==> db' == db)
    && (email != "" && IsFree(db, email) && HasNoIdentity(db, id) ==>
          && reply == Ok(id) && OnlyUser(db, db', id)
          && db'.users[id].email == email && db'.users[id].displayName == (if name == "" then email else name)
          && db'.users[id].avatarUrl == avatar && db'.users[id].statusText == ""
          && db'.users[id].passwordHash == None && db'.users[id].emailVerified
          && (forall p :: p != "" && BeforeBar(subject, p) ==>
                db'.identities == db.identities[subject := Identity(id, env.upper(p), email, true)])
          && db'.refresh == db.refresh && db'.verification == db.verification)
  }

  ghost predicate HasNoIdentity(db: Db, id: UserId) {
    forall s :: s in db.identities ==> db.identities[s].userId != id
  }

  lemma SyncExactly(env: Env, db: Db, subject: string, email: string, displayName: string, avatarUrl: string,
                    emailVerified: bool, id: UserId)
    requires UniqueEmails(db)
    ensures var outcome := SyncAuth0User(env, db, subject, email, displayName, avatarUrl, emailVerified, id);
            SyncAnswers(env, db, subject, email, displayName, avatarUrl, emailVerified, id, outcome.db, outcome.reply)
  {
    var s := env.trim(subject);
    NoProviderExactly(env.upper, s);
    if NamesProvider(s) && emailVerified {
      if s in db.identities {
        SyncKnownExactly(env, db, subject, email, displayName, avatarUrl, id);
      } else {
        SyncNewExactly(env, db, subject, email, displayName, avatarUrl, id);
      }
    }
  }

  lemma SyncKnownExactly(env: Env, db: Db, subject: string, email: string, displayName: string, avatarUrl: string,
                         id: UserId)
    requires UniqueEmails(db) && NamesProvider(env.trim(subject)) && env.trim(subject) in db.identities
    ensures var outcome := SyncAuth0User(env, db, subject, email, displayName, avatarUrl, true, id);
            SyncKnown(db, db.identities[env.trim(subject)].userId, env.Normalize(email), env.trim(displayName),
                      env.trim(avatarUrl), outcome.db, outcome.reply)
  {
    NoProviderExactly(env.upper, env.trim(subject));
    var u := db.identities[env.trim(subject)].userId;
    if u in db.users {
      assert forall v :: v != u ==> !HasEmail(db, v, db.users[u].email);
      assert db.users[u := db.users[u]] == db.users;
    }
  }

  lemma SyncNewExactly(env: Env, db: Db, subject: string, email: string, displayName: string, avatarUrl: string,
                       id: UserId)
    requires UniqueEmails(db) && NamesProvider(env.trim(subject)) && env.trim(subject) !in db.identities
    ensures var outcome := SyncAuth0User(env, db, subject, email, displayName, avatarUrl, true, id);
            SyncNew(env, db, env.trim(subject), env.Normalize(email), env.trim(displayName), env.trim(avatarUrl), id,
                    outcome.db, outcome.reply)
  {
    var s := env.trim(subject);
    var p := SplitsAtBar(env.upper, s);
    EmailOwner(db, env.Normalize(email));
    forall q | BeforeBar(s, q) ensures q == p {
      OneProvider(s, p, q);
    }
    var outcome := SyncAuth0User(env, db, subject, email, displayName, avatarUrl, true, id);
    if env.Normalize(email) != "" && IsFree(db, env.Normalize(email)) && HasNoIdentity(db, id) {
      InsertExactly(db.(users := outcome.db.users), s, Identity(id, env.upper(p), env.Normalize(email), true));
    }
  }

  lemma OneProvider(subject: string, p: string, q: string)
    requires BeforeBar(subject, p) && BeforeBar(subject, q)
    ensures p == q
  {
    var a: string :| subject == p + "|" + a;
    var b: string :| subject == q + "|" + b;
    assert subject[|p|] == '|' && subject[|q|] == '|';
    assert forall j :: 0 <= j < |p| ==> subject[j] == p[j] && p[j] in p;
    assert forall j :: 0 <= j < |q| ==> subject[j] == q[j] && q[j] in q;
    assert p == subject[..|p|] && q == subject[..|q|];
  }
}
