/** What a user can rely on over whole runs: passwords, providers, tokens, and the way from registration to a login. */
module AuthJourneys {
  import opened Prelude
  import opened AuthStore
  import opened AuthSpec
  import opened AuthContracts
  import opened AuthRuns
  import opened AuthChanges
  import opened AuthTheorems

  /** Once a user has a password it is the user's for good. */
  lemma {:induction false} PasswordForGood(env: Env, w: World, run: seq<Timed>, u: UserId)
    requires Inv(w) && Legal(env, w, run) && u in w.db.users && w.db.users[u].passwordHash.Some?
    ensures u in Run(env, w, run).db.users
    ensures Run(env, w, run).db.users[u].passwordHash == w.db.users[u].passwordHash
    decreases |run|
  {
    if run != [] {
      var c, now := run[0].call, run[0].at;
      var chs := CallChanges(env, w, c, now);
      ChangesKeepPassword(w.db, GrantOf(env, c, now), chs, u);
      StepInv(env, w, c, now);
      PasswordForGood(env, After(env, w, c, now), run[1..], u);
    }
  }

  lemma {:induction false} RunProviders(env: Env, w: World, run: seq<Timed>)
    requires Inv(w) && Legal(env, w, run) && Providers(env.upper, w.db)
    ensures Providers(env.upper, Run(env, w, run).db)
    decreases |run|
  {
    if run != [] {
      var c, now := run[0].call, run[0].at;
      var chs := CallChanges(env, w, c, now);
      ChangesKeepProviders(w.db, GrantOf(env, c, now), chs);
      StepInv(env, w, c, now);
      RunProviders(env, After(env, w, c, now), run[1..]);
    }
  }

  /** In every run, two subjects `p|a` and `p|b` of one provider never belong to one user. */
  lemma OneSubjectOfAProvider(env: Env, run: seq<Timed>, p: string, a: string, b: string, u: UserId)
    requires Legal(env, START, run) && '|' !in p && a != b
    requires Names(Run(env, START, run).db, p + "|" + a, u)
    ensures !Names(Run(env, START, run).db, p + "|" + b, u)
  {
    RunProviders(env, START, run);
    ProviderExactly(env.upper, p, a);
    ProviderExactly(env.upper, p, b);
    assert (p + "|" + a)[|p| + 1..] == a && (p + "|" + b)[|p| + 1..] == b;
  }

  /** No verification token appears without being logged as created. */
  lemma NewTokensAreLogged(env: Env, w: World, c: Call, now: int, hash: string)
    requires KeptWorld(w) && Allowed(env, w, c, now)
    requires hash in Effect(env, w.db, c, now).verification && hash !in w.db.verification
    ensures VerificationCreated(Effect(env, w.db, c, now).verification[hash].userId, now) in Events(env, w.db, c, now)
  {
    if c.CallRegister? {
      RegisterExactly(env, w.db, c.email, c.password, c.displayName, c.id, c.hashed, c.raw, c.sent, now);
    } else if c.CallResend? {
      ResendExactly(env, w.db, c.email, c.raw, c.sent, now);
    } else {
      OthersCreateNoTokens(env, w.db, c, now);
    }
  }

  lemma OthersCreateNoTokens(env: Env, db: Db, c: Call, now: int)
    requires !c.CallRegister? && !c.CallResend?
    ensures Effect(env, db, c, now).verification.Keys <= db.verification.Keys
  {
  }

  /** What a presented refresh token comes to: rotated until it expires, refused as expired afterwards. */
  lemma RefreshEvents(env: Env, db: Db, token: string, raw: string, now: int)
    ensures var hash := env.hashToken(token);
            Events(env, db, CallRefresh(token, raw), now) ==
              if hash !in db.refresh then []
              else if now <= db.refresh[hash].expiresAt then [Rotated(db.refresh[hash].userId, hash)]
              else [ExpiredPresented(db.refresh[hash].userId)]
  {
    RefreshExactly(env, db, token, raw, now);
  }

  /**
   * From registration to login: the mailed token verifies the account for a day; from then on, whatever else is
   * called, the password given at registration opens a session under the user's email, and nothing that does not
   * match it does.
   */
  lemma RegisteredUserLogsIn(env: Env, before: seq<Timed>, c: Call, t: int, raw: string, t': int, run: seq<Timed>,
                             email: string, password: string, raw': string, now: int)
    requires Legal(env, START, before) && c.CallRegister? && Allowed(env, Run(env, START, before), c, t)
    requires var w := Run(env, START, before);
             Register(env, w.db, c.email, c.password, c.displayName, c.id, c.hashed, c.raw, c.sent, t).reply.Ok?
    requires var w1 := After(env, Run(env, START, before), c, t);
             Allowed(env, w1, CallVerify(c.raw, raw), t') && t' < t + ONE_DAY
    requires var w1 := After(env, Run(env, START, before), c, t);
             Legal(env, After(env, w1, CallVerify(c.raw, raw), t'), run)
    ensures var w1 := After(env, Run(env, START, before), c, t);
            var w2 := After(env, w1, CallVerify(c.raw, raw), t');
            var w3 := Run(env, w2, run);
            && VerifyEmail(env, w1.db, c.raw, raw, t').reply.Ok?
            && c.id in w3.db.users
            && (env.lower(env.trim(email)) == w3.db.users[c.id].email ==>
                  (Login(env, w3.db, email, password, raw', now).reply.Ok?
                   <==> env.passwordMatches(c.hashed.value, password)))
  {
    var w := Run(env, START, before);
    RunInv(env, START, before);
    var w1 := After(env, w, c, t);
    var w2 := After(env, w1, CallVerify(c.raw, raw), t');
    RegisterThenVerify(env, w, c, t, raw, t');
    StepInv(env, w, c, t);
    StepInv(env, w1, CallVerify(c.raw, raw), t');
    PasswordForGood(env, w2, run, c.id);
    VerifiedForGood(env, w2, run, c.id);
    RunInv(env, w2, run);
    OwnerLogsIn(env, Run(env, w2, run).db, c.id, email, password, raw', now);
  }

  lemma RegisterThenVerify(env: Env, w: World, c: Call, t: int, raw: string, t': int)
    requires Inv(w) && c.CallRegister? && Allowed(env, w, c, t) && t' < t + ONE_DAY
    requires Register(env, w.db, c.email, c.password, c.displayName, c.id, c.hashed, c.raw, c.sent, t).reply.Ok?
    ensures c.hashed.Some?
    ensures var w1 := After(env, w, c, t);
            var w2 := After(env, w1, CallVerify(c.raw, raw), t');
            && VerifyEmail(env, w1.db, c.raw, raw, t').reply.Ok?
            && c.id in w2.db.users && w2.db.users[c.id].emailVerified && w2.db.users[c.id].passwordHash == c.hashed
  {
    var w1 := After(env, w, c, t);
    RegisterExactly(env, w.db, c.email, c.password, c.displayName, c.id, c.hashed, c.raw, c.sent, t);
    VerifyExactly(env, w1.db, c.raw, raw, t');
  }

  lemma OwnerLogsIn(env: Env, db: Db, u: UserId, email: string, password: string, raw: string, now: int)
    requires UniqueEmails(db) && u in db.users && db.users[u].passwordHash.Some? && db.users[u].emailVerified
    ensures env.lower(env.trim(email)) == db.users[u].email ==>
              (Login(env, db, email, password, raw, now).reply.Ok?
               <==> env.passwordMatches(db.users[u].passwordHash.value, password))
  {
    LoginExactly(env, db, email, password, raw, now);
    if env.lower(env.trim(email)) == db.users[u].email {
      assert HasEmail(db, u, db.users[u].email);
    }
  }

  /** In a run every call does to the tables what its contract says, for some answer the contract allows. */
  ghost predicate KeepsContract(env: Env, db: Db, c: Call, now: int, db': Db) {
    match c
    case CallRegister(email, password, name, id, hashed, raw, sent) =>
      exists r :: RegisterAnswers(env, db, email, password, name, id, hashed, raw, sent, now, db', r)
    case CallResend(email, raw, sent) => exists r :: ResendAnswers(env, db, email, raw, sent, now, db', r)
    case CallLogin(email, password, raw) => exists r :: LoginAnswers(env, db, email, password, raw, now, db', r)
    case CallVerify(token, raw) => exists r :: VerifyAnswers(env, db, token, raw, now, db', r)
    case CallRefresh(token, raw) => exists r :: RefreshAnswers(env, db, token, raw, now, db', r)
    case CallLogout(token) => db' == db.(refresh := db.refresh - {env.hashToken(token)})
    case CallLink(pending, password, raw) => exists r :: LinkAnswers(env, db, pending, password, raw, now, db', r)
    case CallSetPassword(u, password, hashed) => exists r :: SetPasswordAnswers(db, u, password, hashed, db', r)
    case CallUpdateProfile(u, name, avatar, status) =>
      exists r :: ProfileAnswers(env, db, u, name, avatar, status, db', r)
    case CallSync(subject, email, name, avatar, verified, id) =>
      exists r :: SyncAnswers(env, db, subject, email, name, avatar, verified, id, db', r)
  }

  lemma EveryCallKeepsItsContract(env: Env, db: Db, c: Call, now: int)
    requires UniqueEmails(db)
    ensures KeepsContract(env, db, c, now, Effect(env, db, c, now))
  {
    match c {
      case CallRegister(email, password, name, id, hashed, raw, sent) =>
        RegisterExactly(env, db, email, password, name, id, hashed, raw, sent, now);
      case CallResend(email, raw, sent) => ResendExactly(env, db, email, raw, sent, now);
      case CallLogin(email, password, raw) => LoginExactly(env, db, email, password, raw, now);
      case CallVerify(token, raw) => VerifyExactly(env, db, token, raw, now);
      case CallRefresh(token, raw) => RefreshExactly(env, db, token, raw, now);
      case CallLogout(token) =>
      case CallLink(pending, password, raw) => LinkExactly(env, db, pending, password, raw, now);
      case CallSetPassword(u, password, hashed) => SetPasswordExactly(db, u, password, hashed);
      case CallUpdateProfile(u, name, avatar, status) => ProfileExactly(env, db, u, name, avatar, status);
      case CallSync(subject, email, name, avatar, verified, id) =>
        SyncExactly(env, db, subject, email, name, avatar, verified, id);
    }
  }

  /** A user who sets a first password can log in with it after any further calls, and with nothing else. */
  lemma PasswordSetLogsIn(env: Env, w: World, u: UserId, password: string, hashed: Option<string>, t: int,
                          run: seq<Timed>, email: string, attempt: string, raw: string, now: int)
    requires Inv(w) && Allowed(env, w, CallSetPassword(u, password, hashed), t)
    requires SetPassword(w.db, u, password, hashed).reply.Ok? && w.db.users[u].emailVerified
    requires Legal(env, After(env, w, CallSetPassword(u, password, hashed), t), run)
    ensures var w' := Run(env, After(env, w, CallSetPassword(u, password, hashed), t), run);
            && u in w'.db.users
            && (env.lower(env.trim(email)) == w'.db.users[u].email ==>
                  (Login(env, w'.db, email, attempt, raw, now).reply.Ok?
                   <==> env.passwordMatches(hashed.value, attempt)))
  {
    var c := CallSetPassword(u, password, hashed);
    var w1 := After(env, w, c, t);
    SetPasswordExactly(w.db, u, password, hashed);
    StepInv(env, w, c, t);
    PasswordForGood(env, w1, run, u);
    VerifiedForGood(env, w1, run, u);
    RunInv(env, w1, run);
    OwnerLogsIn(env, Run(env, w1, run).db, u, email, attempt, raw, now);
  }

  lemma {:induction false} IdentityForGood(env: Env, w: World, run: seq<Timed>, subject: string, u: UserId)
    requires Inv(w) && Legal(env, w, run) && Names(w.db, subject, u)
    ensures Names(Run(env, w, run).db, subject, u)
    decreases |run|
  {
    if run != [] {
      var c, now := run[0].call, run[0].at;
      var chs := CallChanges(env, w, c, now);
      ChangesKeepIdentity(w.db, GrantOf(env, c, now), chs, subject);
      StepInv(env, w, c, now);
      IdentityForGood(env, After(env, w, c, now), run[1..], subject, u);
    }
  }

  /** Whoever has logged in through a provider is the same user at every later login with that subject. */
  lemma SubjectIsRecognised(env: Env, w: World, c: Call, t: int, run: seq<Timed>, email: string, name: string,
                            avatar: string, id: UserId)
    requires Inv(w) && c.CallSync? && Allowed(env, w, c, t) && Legal(env, After(env, w, c, t), run)
    requires SyncAuth0User(env, w.db, c.subject, c.email, c.displayName, c.avatarUrl, c.emailVerified, c.id).reply.Ok?
    ensures var u := SyncAuth0User(env, w.db, c.subject, c.email, c.displayName, c.avatarUrl, c.emailVerified, c.id)
                       .reply.value;
            var db := Run(env, After(env, w, c, t), run).db;
            var again := SyncAuth0User(env, db, c.subject, email, name, avatar, true, id).reply;
            again == Ok(u) || (again == Err(Refused) && !IsFree(db, env.lower(env.trim(email))))
  {
    var w1 := After(env, w, c, t);
    SyncNamesItsUser(env, w, c, t);
    var first := SyncAuth0User(env, w.db, c.subject, c.email, c.displayName, c.avatarUrl, c.emailVerified, c.id);
    StepInv(env, w, c, t);
    IdentityForGood(env, w1, run, env.trim(c.subject), first.reply.value);
    RunInv(env, w1, run);
    SyncExactly(env, Run(env, w1, run).db, c.subject, email, name, avatar, true, id);
  }

  lemma SyncNamesItsUser(env: Env, w: World, c: Call, t: int)
    requires Inv(w) && c.CallSync? && Allowed(env, w, c, t)
    requires SyncAuth0User(env, w.db, c.subject, c.email, c.displayName, c.avatarUrl, c.emailVerified, c.id).reply.Ok?
    ensures var u := SyncAuth0User(env, w.db, c.subject, c.email, c.displayName, c.avatarUrl, c.emailVerified, c.id)
                       .reply.value;
            Names(After(env, w, c, t).db, env.trim(c.subject), u) && NamesProvider(env.trim(c.subject))
  {
    SyncExactly(env, w.db, c.subject, c.email, c.displayName, c.avatarUrl, c.emailVerified, c.id);
  }
}
