/** Every account call comes down to a few row changes. What the row changes keep, runs of calls keep. */
module AuthChanges {
  import opened Prelude
  import opened AuthStore
  import opened AuthSpec
  import opened AuthRuns

  datatype Change =
    | AddUser(id: UserId, user: User)
    | SetUser(id: UserId, user: User)
    | AddIdentity(subject: string, row: Identity)
    | SendToken(hash: string, token: VerificationToken)
    | ConsumeToken(hash: string)
    | OpenSession(hash: string, session: RefreshToken)
    | CloseSession(hash: string)

  function Made(db: Db, ch: Change): Db {
    match ch
    case AddUser(id, user) => db.(users := db.users[id := user])
    case SetUser(id, user) => db.(users := db.users[id := user])
    case AddIdentity(subject, row) => db.(identities := db.identities[subject := row])
    case SendToken(hash, token) =>
      var cleared := DropVerification(db, token.userId);
      cleared.(verification := cleared.verification[hash := token])
    case ConsumeToken(hash) => db.(verification := db.verification - {hash})
    case OpenSession(hash, session) => db.(refresh := db.refresh[hash := session])
    case CloseSession(hash) => db.(refresh := db.refresh - {hash})
  }

  ghost predicate EmailFree(db: Db, email: string, id: UserId) {
    forall u :: HasEmail(db, u, email) ==> u == id
  }

  /** What a call is given: the fresh ids and hashes it may use up, the time, and the case mapping. */
  datatype Grant = Grant(ids: set<UserId>, hashes: set<string>, now: int, upper: string -> string)

  function GrantOf(env: Env, c: Call, now: int): Grant {
    Grant(NewIds(c), NewHashes(env, c), now, env.upper)
  }

  /** When a call may make the change. */
  ghost predicate Permitted(db: Db, g: Grant, ch: Change) {
    match ch
    case AddUser(id, user) => id in g.ids && id !in db.users && EmailFree(db, user.email, id)
    case SetUser(id, user) =>
      && id in db.users && EmailFree(db, user.email, id) && (db.users[id].emailVerified ==> user.emailVerified)
      && (db.users[id].passwordHash.Some? ==> user.passwordHash == db.users[id].passwordHash)
    case AddIdentity(subject, row) =>
      !IdentityConflicts(db, subject, row) && ProviderOf(g.upper, subject) == Some(row.provider)
    case SendToken(hash, token) =>
      && hash in g.hashes && hash !in db.verification && token.createdAt == g.now
      && token.userId in db.users && !db.users[token.userId].emailVerified
    case ConsumeToken(hash) =>
      hash in db.verification ==>
        var u := db.verification[hash].userId; u in db.users && db.users[u].emailVerified
    case OpenSession(hash, session) =>
      hash in g.hashes && hash !in db.refresh && session.userId in db.users && db.users[session.userId].emailVerified
    case CloseSession(hash) => true
  }

  function MadeAll(db: Db, chs: seq<Change>): Db
    decreases |chs|
  {
    if chs == [] then db else MadeAll(Made(db, chs[0]), chs[1..])
  }

  ghost predicate AllPermitted(db: Db, g: Grant, chs: seq<Change>)
    decreases |chs|
  {
    chs == [] || (Permitted(db, g, chs[0]) && AllPermitted(Made(db, chs[0]), g, chs[1..]))
  }

  lemma TwoChanges(db: Db, g: Grant, a: Change, b: Change)
    requires Permitted(db, g, a) && Permitted(Made(db, a), g, b)
    ensures AllPermitted(db, g, [a, b]) && MadeAll(db, [a, b]) == Made(Made(db, a), b)
  {
    assert [a, b][1..] == [b] && [b][1..] == [];
    assert AllPermitted(Made(db, a), g, [b]);
    assert MadeAll(Made(db, a), [b]) == Made(Made(db, a), b);
  }

  lemma ThreeChanges(db: Db, g: Grant, a: Change, b: Change, c: Change)
    requires Permitted(db, g, a) && Permitted(Made(db, a), g, b)
    requires Permitted(Made(Made(db, a), b), g, c)
    ensures AllPermitted(db, g, [a, b, c]) && MadeAll(db, [a, b, c]) == Made(Made(Made(db, a), b), c)
  {
    assert [a, b, c][1..] == [b, c];
    TwoChanges(Made(db, a), g, b, c);
  }

  // ----- what the tables satisfy -----

  /** References resolve, keys were handed out, emails are unique. */
  ghost predicate Sound(db: Db, ids: set<UserId>, hashes: set<string>) {
    && UniqueEmails(db)
    && (forall u :: u in db.users ==> u in ids)
    && (forall h :: h in db.refresh ==> h in hashes && db.refresh[h].userId in db.users)
    && (forall h :: h in db.verification ==> h in hashes && db.verification[h].userId in db.users)
    && (forall s :: s in db.identities ==> db.identities[s].userId in db.users)
  }

  ghost predicate SoundWorld(w: World) {
    Sound(w.db, w.ids, w.hashes)
  }

  // ----- each call as row changes -----

  lemma RegisterChanges(env: Env, w: World, c: Call, now: int) returns (chs: seq<Change>)
    requires SoundWorld(w) && Allowed(env, w, c, now) && c.CallRegister?
    ensures AllPermitted(w.db, GrantOf(env, c, now), chs) && Effect(env, w.db, c, now) == MadeAll(w.db, chs)
  {
    var hash := env.hashToken(c.raw);
    var outcome := Register(env, w.db, c.email, c.password, c.displayName, c.id, c.hashed, c.raw, c.sent, now);
    if outcome.reply.Ok? {
      var add := AddUser(c.id, outcome.db.users[c.id]);
      var send := SendToken(hash, VerificationToken(c.id, now + VERIFICATION_EXPIRY, now));
      chs := [add, send];
      TwoChanges(w.db, GrantOf(env, c, now), add, send);
    } else {
      chs := [];
      if outcome.reply.error.EmailNotSent? {
        RollbackRestores(env, w, c, now);
      }
    }
  }

  /** Deleting the user a failed registration created takes everything it wrote with it. */
  lemma RollbackRestores(env: Env, w: World, c: Call, now: int)
    requires SoundWorld(w) && Allowed(env, w, c, now) && c.CallRegister?
    requires Register(env, w.db, c.email, c.password, c.displayName, c.id, c.hashed, c.raw, c.sent, now).reply
        == Err(EmailNotSent)
    ensures Register(env, w.db, c.email, c.password, c.displayName, c.id, c.hashed, c.raw, c.sent, now).db == w.db
  {
    var after := Register(env, w.db, c.email, c.password, c.displayName, c.id, c.hashed, c.raw, c.sent, now).db;
    assert c.id !in w.db.users;
    assert after.users == w.db.users;
    assert after.identities == w.db.identities;
    assert after.refresh == w.db.refresh;
    assert after.verification == w.db.verification;
  }

  lemma ResendChanges(env: Env, w: World, c: Call, now: int) returns (chs: seq<Change>)
    requires SoundWorld(w) && Allowed(env, w, c, now) && c.CallResend?
    ensures AllPermitted(w.db, GrantOf(env, c, now), chs) && Effect(env, w.db, c, now) == MadeAll(w.db, chs)
  {
    if Events(env, w.db, c, now) == [] {
      chs := [];
    } else {
      var u := FindByEmail(w.db, env.Normalize(c.email)).value;
      chs := [SendToken(env.hashToken(c.raw), VerificationToken(u, now + VERIFICATION_EXPIRY, now))];
    }
  }

  lemma LoginChanges(env: Env, w: World, c: Call, now: int) returns (chs: seq<Change>)
    requires SoundWorld(w) && Allowed(env, w, c, now) && c.CallLogin?
    ensures AllPermitted(w.db, GrantOf(env, c, now), chs) && Effect(env, w.db, c, now) == MadeAll(w.db, chs)
  {
    var reply := Login(env, w.db, c.email, c.password, c.raw, now).reply;
    if reply.Ok? {
      chs := [OpenSession(env.hashToken(c.raw), RefreshToken(reply.value.user, now + env.refreshExpiry))];
    } else {
      chs := [];
    }
  }

  lemma VerifyChanges(env: Env, w: World, c: Call, now: int) returns (chs: seq<Change>)
    requires SoundWorld(w) && Allowed(env, w, c, now) && c.CallVerify?
    ensures AllPermitted(w.db, GrantOf(env, c, now), chs) && Effect(env, w.db, c, now) == MadeAll(w.db, chs)
  {
    var hash := env.hashToken(c.token);
    if VerifyEmail(env, w.db, c.token, c.raw, now).reply.Ok? {
      var u := w.db.verification[hash].userId;
      var mark := SetUser(u, w.db.users[u].(emailVerified := true));
      var consume := ConsumeToken(hash);
      var open := OpenSession(env.hashToken(c.raw), RefreshToken(u, now + env.refreshExpiry));
      chs := [mark, consume, open];
      ThreeChanges(w.db, GrantOf(env, c, now), mark, consume, open);
    } else {
      chs := [];
    }
  }

  lemma RefreshChanges(env: Env, w: World, c: Call, now: int) returns (chs: seq<Change>)
    requires SoundWorld(w) && SessionsVerified(w.db) && Allowed(env, w, c, now) && c.CallRefresh?
    ensures AllPermitted(w.db, GrantOf(env, c, now), chs) && Effect(env, w.db, c, now) == MadeAll(w.db, chs)
  {
    var hash := env.hashToken(c.token);
    if hash !in w.db.refresh {
      chs := [];
    } else if now > w.db.refresh[hash].expiresAt {
      chs := [CloseSession(hash)];
    } else {
      var u := w.db.refresh[hash].userId;
      var open := OpenSession(env.hashToken(c.raw), RefreshToken(u, now + env.refreshExpiry));
      chs := [CloseSession(hash), open];
      TwoChanges(w.db, GrantOf(env, c, now), CloseSession(hash), open);
    }
  }

  lemma LinkChanges(env: Env, w: World, c: Call, now: int) returns (chs: seq<Change>)
    requires SoundWorld(w) && Allowed(env, w, c, now) && c.CallLink?
    ensures AllPermitted(w.db, GrantOf(env, c, now), chs) && Effect(env, w.db, c, now) == MadeAll(w.db, chs)
  {
    var outcome := ConfirmAccountLink(env, w.db, c.pendingToken, c.password, c.raw, now);
    if outcome.reply.Err? {
      chs := [];
    } else {
      var claims := env.linkClaims(c.pendingToken, now).value;
      var u := FindByEmail(w.db, claims.email).value;
      var mark := SetUser(u, w.db.users[u].(emailVerified := true));
      var open := OpenSession(env.hashToken(c.raw), RefreshToken(u, now + env.refreshExpiry));
      var row := Identity(u, ProviderOf(env.upper, claims.subject).value, claims.email, false);
      if IdentityConflicts(w.db, claims.subject, row) {
        chs := [mark, open];
        TwoChanges(w.db, GrantOf(env, c, now), mark, open);
      } else {
        var link := AddIdentity(claims.subject, row);
        chs := [link, mark, open];
        ThreeChanges(w.db, GrantOf(env, c, now), link, mark, open);
      }
    }
  }

  lemma SyncChanges(env: Env, w: World, c: Call, now: int) returns (chs: seq<Change>)
    requires SoundWorld(w) && Allowed(env, w, c, now) && c.CallSync?
    ensures AllPermitted(w.db, GrantOf(env, c, now), chs) && Effect(env, w.db, c, now) == MadeAll(w.db, chs)
  {
    var subject := env.trim(c.subject);
    var outcome := SyncAuth0User(env, w.db, c.subject, c.email, c.displayName, c.avatarUrl, c.emailVerified, c.id);
    if outcome.db == w.db {
      chs := [];
    } else if subject in w.db.identities {
      var u := w.db.identities[subject].userId;
      chs := [SetUser(u, outcome.db.users[u])];
    } else {
      var add := AddUser(c.id, outcome.db.users[c.id]);
      var row := Identity(c.id, ProviderOf(env.upper, subject).value, env.Normalize(c.email), true);
      var link := AddIdentity(subject, row);
      if IdentityConflicts(Made(w.db, add), subject, row) {
        chs := [add];
      } else {
        chs := [add, link];
        TwoChanges(w.db, GrantOf(env, c, now), add, link);
      }
    }
  }

  lemma ProfileChanges(env: Env, w: World, c: Call, now: int) returns (chs: seq<Change>)
    requires SoundWorld(w) && Allowed(env, w, c, now) && c.CallUpdateProfile?
    ensures AllPermitted(w.db, GrantOf(env, c, now), chs) && Effect(env, w.db, c, now) == MadeAll(w.db, chs)
  {
    var outcome := UpdateProfile(env, w.db, c.user, c.name, c.avatar, c.status);
    chs := if outcome.db == w.db then [] else [SetUser(c.user, outcome.db.users[c.user])];
  }

  lemma CallChanges(env: Env, w: World, c: Call, now: int) returns (chs: seq<Change>)
    requires SoundWorld(w) && SessionsVerified(w.db) && Allowed(env, w, c, now)
    ensures AllPermitted(w.db, GrantOf(env, c, now), chs) && Effect(env, w.db, c, now) == MadeAll(w.db, chs)
  {
    match c {
      case CallRegister(_, _, _, _, _, _, _) => chs := RegisterChanges(env, w, c, now);
      case CallResend(_, _, _) => chs := ResendChanges(env, w, c, now);
      case CallLogin(_, _, _) => chs := LoginChanges(env, w, c, now);
      case CallVerify(_, _) => chs := VerifyChanges(env, w, c, now);
      case CallRefresh(_, _) => chs := RefreshChanges(env, w, c, now);
      case CallLogout(token) => chs := [CloseSession(env.hashToken(token))];
      case CallLink(_, _, _) => chs := LinkChanges(env, w, c, now);
      case CallSetPassword(u, password, hashed) =>
        chs := if SetPassword(w.db, u, password, hashed).reply.Ok?
               then [SetUser(u, w.db.users[u].(passwordHash := hashed))] else [];
      case CallUpdateProfile(_, _, _, _) => chs := ProfileChanges(env, w, c, now);
      case CallSync(_, _, _, _, _, _) => chs := SyncChanges(env, w, c, now);
    }
  }

  /** Only verified users have sessions. */
  ghost predicate SessionsVerified(db: Db) {
    forall h :: h in db.refresh ==> db.refresh[h].userId in db.users && db.users[db.refresh[h].userId].emailVerified
  }

  ghost predicate OneVerificationToken(db: Db) {
    forall g, h :: g in db.verification && h in db.verification ==>
      db.verification[g].userId == db.verification[h].userId ==> g == h
  }

  ghost predicate Kept(db: Db, ids: set<UserId>, hashes: set<string>) {
    Sound(db, ids, hashes) && SessionsVerified(db) && OneVerificationToken(db)
  }

  lemma ChangeKeeps(db: Db, ids: set<UserId>, hashes: set<string>, g: Grant, ch: Change)
    requires Kept(db, ids, hashes) && g.ids <= ids && g.hashes <= hashes && Permitted(db, g, ch)
    ensures Kept(Made(db, ch), ids, hashes)
  {
    match ch {
      case AddUser(id, user) => UserKeeps(db, ids, hashes, id, user);
      case SetUser(id, user) => UserKeeps(db, ids, hashes, id, user);
      case _ => TokensKeep(db, ids, hashes, g, ch);
    }
  }

  lemma UserKeeps(db: Db, ids: set<UserId>, hashes: set<string>, id: UserId, user: User)
    requires Kept(db, ids, hashes) && id in ids && EmailFree(db, user.email, id)
    requires id in db.users && db.users[id].emailVerified ==> user.emailVerified
    ensures Kept(db.(users := db.users[id := user]), ids, hashes)
  {
    var users := db.users[id := user];
    forall u, v | u in users && v in users && users[u].email == users[v].email ensures u == v {
      assert u != id ==> HasEmail(db, u, db.users[u].email);
      assert v != id ==> HasEmail(db, v, db.users[v].email);
    }
  }

  lemma TokensKeep(db: Db, ids: set<UserId>, hashes: set<string>, g: Grant, ch: Change)
    requires Kept(db, ids, hashes) && g.hashes <= hashes && Permitted(db, g, ch) && !ch.AddUser? && !ch.SetUser?
    ensures Kept(Made(db, ch), ids, hashes)
  {
  }

  lemma {:induction false} ChangesKeep(db: Db, ids: set<UserId>, hashes: set<string>, g: Grant, chs: seq<Change>)
    requires Kept(db, ids, hashes) && g.ids <= ids && g.hashes <= hashes && AllPermitted(db, g, chs)
    ensures Kept(MadeAll(db, chs), ids, hashes)
    decreases |chs|
  {
    if chs != [] {
      ChangeKeeps(db, ids, hashes, g, chs[0]);
      ChangesKeep(Made(db, chs[0]), ids, hashes, g, chs[1..]);
    }
  }

  lemma {:induction false} ChangesKeepVerified(db: Db, g: Grant, chs: seq<Change>, u: UserId)
    requires AllPermitted(db, g, chs) && u in db.users && db.users[u].emailVerified
    ensures u in MadeAll(db, chs).users && MadeAll(db, chs).users[u].emailVerified
    decreases |chs|
  {
    if chs != [] {
      ChangesKeepVerified(Made(db, chs[0]), g, chs[1..], u);
    }
  }

  /** An unverified user has a verification token made at `t` or later. */
  ghost predicate Guarded(db: Db, u: UserId, t: int) {
    u in db.users && !db.users[u].emailVerified ==>
      exists h :: h in VerificationTokensOf(db, u) && db.verification[h].createdAt >= t
  }

  lemma {:induction false} ChangesKeepGuard(db: Db, g: Grant, chs: seq<Change>, u: UserId, t: int)
    requires AllPermitted(db, g, chs) && u !in g.ids && t <= g.now && Guarded(db, u, t)
    ensures Guarded(MadeAll(db, chs), u, t)
    decreases |chs|
  {
    if chs != [] {
      ChangeKeepsGuard(db, g, chs[0], u, t);
      ChangesKeepGuard(Made(db, chs[0]), g, chs[1..], u, t);
    }
  }

  lemma ChangeKeepsGuard(db: Db, g: Grant, ch: Change, u: UserId, t: int)
    requires Permitted(db, g, ch) && u !in g.ids && t <= g.now && Guarded(db, u, t)
    ensures Guarded(Made(db, ch), u, t)
  {
    var db' := Made(db, ch);
    if u in db'.users && !db'.users[u].emailVerified {
      if ch.SendToken? && ch.token.userId == u {
        assert ch.hash in VerificationTokensOf(db', u);
      } else {
        var h :| h in VerificationTokensOf(db, u) && db.verification[h].createdAt >= t;
        assert h in VerificationTokensOf(db', u);
      }
    }
  }

  /** A password that is set is never replaced. */
  lemma {:induction false} ChangesKeepPassword(db: Db, g: Grant, chs: seq<Change>, u: UserId)
    requires AllPermitted(db, g, chs) && u in db.users && db.users[u].passwordHash.Some?
    ensures u in MadeAll(db, chs).users && MadeAll(db, chs).users[u].passwordHash == db.users[u].passwordHash
    decreases |chs|
  {
    if chs != [] {
      ChangesKeepPassword(Made(db, chs[0]), g, chs[1..], u);
    }
  }

  /** An identity row stays as it is. */
  lemma {:induction false} ChangesKeepIdentity(db: Db, g: Grant, chs: seq<Change>, subject: string)
    requires AllPermitted(db, g, chs) && subject in db.identities
    ensures subject in MadeAll(db, chs).identities && MadeAll(db, chs).identities[subject] == db.identities[subject]
    decreases |chs|
  {
    if chs != [] {
      ChangesKeepIdentity(Made(db, chs[0]), g, chs[1..], subject);
    }
  }

  /** Every identity is filed under its subject's provider, and no user has two of one provider. */
  ghost predicate Providers(upper: string -> string, db: Db) {
    && (forall s :: s in db.identities ==> ProviderOf(upper, s) == Some(db.identities[s].provider))
    && (forall s, r :: s in db.identities && r in db.identities ==>
          db.identities[s].userId == db.identities[r].userId ==>
            db.identities[s].provider == db.identities[r].provider ==> s == r)
  }

  lemma {:induction false} ChangesKeepProviders(db: Db, g: Grant, chs: seq<Change>)
    requires AllPermitted(db, g, chs) && Providers(g.upper, db)
    ensures Providers(g.upper, MadeAll(db, chs))
    decreases |chs|
  {
    if chs != [] {
      ChangeKeepsProviders(db, g, chs[0]);
      ChangesKeepProviders(Made(db, chs[0]), g, chs[1..]);
    }
  }

  lemma ChangeKeepsProviders(db: Db, g: Grant, ch: Change)
    requires Permitted(db, g, ch) && Providers(g.upper, db)
    ensures Providers(g.upper, Made(db, ch))
  {
  }

  /** A refresh token that is gone stays gone unless its hash is handed out anew. */
  lemma {:induction false} ChangesKeepGone(db: Db, g: Grant, chs: seq<Change>, hash: string)
    requires AllPermitted(db, g, chs) && hash !in g.hashes && hash !in db.refresh
    ensures hash !in MadeAll(db, chs).refresh
    decreases |chs|
  {
    if chs != [] {
      ChangesKeepGone(Made(db, chs[0]), g, chs[1..], hash);
    }
  }

  /** So does a verification token. */
  lemma {:induction false} ChangesKeepSpent(db: Db, g: Grant, chs: seq<Change>, hash: string)
    requires AllPermitted(db, g, chs) && hash !in g.hashes && hash !in db.verification
    ensures hash !in MadeAll(db, chs).verification
    decreases |chs|
  {
    if chs != [] {
      ChangesKeepSpent(Made(db, chs[0]), g, chs[1..], hash);
    }
  }
}
