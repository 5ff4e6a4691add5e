/** What becomes of a user nobody can log in as, over whole runs of the account services. */
module OrphanRuns {
  import opened Prelude
  import opened AuthStore
  import opened AuthSpec
  import opened AuthRuns
  import opened AuthChanges
  import opened AuthTheorems

  /** Whoever turns up with the email of an orphan is turned away: it is taken, and there is no password to it. */
  lemma OrphanLocksEmail(env: Env, db: Db, u: UserId, email: string, password: string, now: int)
    requires UniqueEmails(db) && Orphan(db, u) && env.Normalize(email) == db.users[u].email != ""
    ensures forall raw :: Login(env, db, email, password, raw, now) == Outcome(db, Err(NoPasswordSet))
    ensures forall name, id, hashed, raw, sent :: ByteLength(password) >= 8 ==>
              Register(env, db, email, password, name, id, hashed, raw, sent, now) == Outcome(db, Err(EmailTaken))
    ensures forall subject, name, avatar, id ::
              && env.trim(subject) != "" && ProviderOf(env.upper, env.trim(subject)).Some?
              && env.trim(subject) !in db.identities ==>
                SyncAuth0User(env, db, subject, email, name, avatar, true, id) == Outcome(db, Err(LinkRequired))
    ensures forall token, raw ::
              && env.linkClaims(token, now).Some? && env.linkClaims(token, now).value.subject != ""
              && env.linkClaims(token, now).value.email == db.users[u].email ==>
                ConfirmAccountLink(env, db, token, password, raw, now) == Outcome(db, Err(NoPasswordSet))
  {
    OwnerOfEmail(db, u);
  }

  /** The call is not a request to set the password of `u`, which only `u`, logged in, could make. */
  predicate NotItsPassword(c: Call, u: UserId) {
    !(c.CallSetPassword? && c.user == u)
  }

  /** What the calls keep of an orphan: all of it, its email included. */
  ghost predicate StillOrphan(db: Db, db': Db, u: UserId) {
    Orphan(db', u) && u in db.users && db'.users[u].email == db.users[u].email
  }

  lemma OrphanKeptByAccounts(env: Env, w: World, c: Call, now: int, u: UserId)
    requires SoundWorld(w) && Allowed(env, w, c, now) && Orphan(w.db, u)
    requires c.CallRegister? || c.CallResend?
    ensures StillOrphan(w.db, Effect(env, w.db, c, now), u)
  {
    OwnerOfEmail(w.db, u);
    if c.CallRegister? {
      var outcome := Register(env, w.db, c.email, c.password, c.displayName, c.id, c.hashed, c.raw, c.sent, now);
      if outcome.reply == Err(EmailNotSent) {
        RollbackRestores(env, w, c, now);
      }
    }
    SameIdentities(w.db, Effect(env, w.db, c, now), u);
  }

  lemma SameIdentities(db: Db, db': Db, u: UserId)
    requires db'.identities == db.identities
    ensures HasIdentity(db', u) <==> HasIdentity(db, u)
  {
    forall s ensures Names(db', s, u) <==> Names(db, s, u) {
    }
  }

  /** Storing a session of somebody else, marking somebody else verified: nothing of an orphan changes. */
  lemma KeptBySession(env: Env, db: Db, v: UserId, raw: string, now: int, u: UserId)
    requires Orphan(db, u) && v != u
    ensures StillOrphan(db, StartSession(env, db, v, raw, now).db, u)
  {
    SameIdentities(db, StartSession(env, db, v, raw, now).db, u);
  }

  lemma KeptByMark(db: Db, v: UserId, u: UserId)
    requires Orphan(db, u) && v != u && v in db.users
    ensures StillOrphan(db, Verified(db, v), u)
  {
    SameIdentities(db, Verified(db, v), u);
  }

  lemma KeptByTokens(db: Db, db': Db, u: UserId)
    requires Orphan(db, u) && db'.users == db.users && db'.identities == db.identities
    requires db'.refresh.Keys <= db.refresh.Keys && forall h :: h in db'.refresh ==> db'.refresh[h] == db.refresh[h]
    requires db'.verification.Keys <= db.verification.Keys
    requires forall h :: h in db'.verification ==> db'.verification[h] == db.verification[h]
    ensures StillOrphan(db, db', u)
  {
    SameIdentities(db, db', u);
  }

  lemma OrphanKeptByLogin(env: Env, db: Db, email: string, password: string, raw: string, now: int, u: UserId)
    requires Orphan(db, u)
    ensures StillOrphan(db, Login(env, db, email, password, raw, now).db, u)
  {
    var reply := Login(env, db, email, password, raw, now).reply;
    if reply.Ok? {
      KeptBySession(env, db, reply.value.user, raw, now, u);
    }
  }

  lemma OrphanKeptByVerify(env: Env, db: Db, token: string, raw: string, now: int, u: UserId)
    requires Orphan(db, u)
    ensures StillOrphan(db, VerifyEmail(env, db, token, raw, now).db, u)
  {
    var hash := env.hashToken(token);
    if hash in db.verification && db.verification[hash].expiresAt > now {
      var v := db.verification[hash].userId;
      var consumed := db.(verification := db.verification - {hash});
      KeptByTokens(db, consumed, u);
      if v in db.users {
        KeptByMark(consumed, v, u);
        KeptBySession(env, Verified(consumed, v), v, raw, now, u);
      }
    }
  }

  lemma OrphanKeptByRefresh(env: Env, db: Db, token: string, raw: string, now: int, u: UserId)
    requires Orphan(db, u)
    ensures StillOrphan(db, Refresh(env, db, token, raw, now).db, u)
  {
    var hash := env.hashToken(token);
    if hash in db.refresh {
      var consumed := db.(refresh := db.refresh - {hash});
      KeptByTokens(db, consumed, u);
      if now <= db.refresh[hash].expiresAt {
        KeptBySession(env, consumed, db.refresh[hash].userId, raw, now, u);
      }
    }
  }

  lemma OrphanKeptByLink(env: Env, db: Db, token: string, password: string, raw: string, now: int, u: UserId)
    requires Orphan(db, u)
    ensures StillOrphan(db, ConfirmAccountLink(env, db, token, password, raw, now).db, u)
  {
    var reply := ConfirmAccountLink(env, db, token, password, raw, now).reply;
    if reply.Ok? {
      var claims := env.linkClaims(token, now).value;
      var v := FindByEmail(db, claims.email).value;
      var linked := Link(db, v, ProviderOf(env.upper, claims.subject).value, claims).value;
      LinkGivesOthers(db, v, ProviderOf(env.upper, claims.subject).value, claims, u);
      KeptByMark(linked, v, u);
      KeptBySession(env, Verified(linked, v), v, raw, now, u);
    }
  }

  lemma LinkGivesOthers(db: Db, v: UserId, provider: string, claims: LinkClaims, u: UserId)
    requires Orphan(db, u) && v != u && Link(db, v, provider, claims).Ok?
    ensures StillOrphan(db, Link(db, v, provider, claims).value, u)
  {
    forall s ensures !Names(Link(db, v, provider, claims).value, s, u) {
      assert !Names(db, s, u);
    }
  }

  lemma OrphanKeptByEdit(db: Db, v: UserId, edit: ProfileEdit, u: UserId)
    requires Orphan(db, u)
    ensures StillOrphan(db, EditProfile(db, v, edit).db, u)
  {
    SameIdentities(db, EditProfile(db, v, edit).db, u);
  }

  lemma OrphanKeptByPassword(db: Db, v: UserId, password: string, hashed: Option<string>, u: UserId)
    requires Orphan(db, u) && v != u
    ensures StillOrphan(db, SetPassword(db, v, password, hashed).db, u)
  {
    SameIdentities(db, SetPassword(db, v, password, hashed).db, u);
  }

  lemma OrphanKeptBySync(env: Env, db: Db, c: Call, u: UserId)
    requires Orphan(db, u) && c.CallSync? && c.id !in db.users
    ensures var db' :=
              SyncAuth0User(env, db, c.subject, c.email, c.displayName, c.avatarUrl, c.emailVerified, c.id).db;
            StillOrphan(db, db', u)
  {
    var db' := SyncAuth0User(env, db, c.subject, c.email, c.displayName, c.avatarUrl, c.emailVerified, c.id).db;
    assert !Names(db, env.trim(c.subject), u);
    SyncGivesOthers(env, db, c, u);
    assert u in db'.users && db'.users[u] == db.users[u];
  }

  lemma SyncGivesOthers(env: Env, db: Db, c: Call, u: UserId)
    requires Orphan(db, u) && c.CallSync? && c.id !in db.users
    ensures var db' :=
              SyncAuth0User(env, db, c.subject, c.email, c.displayName, c.avatarUrl, c.emailVerified, c.id).db;
            !HasIdentity(db', u) && db'.refresh == db.refresh && db'.verification == db.verification
  {
    var db' := SyncAuth0User(env, db, c.subject, c.email, c.displayName, c.avatarUrl, c.emailVerified, c.id).db;
    forall s ensures !Names(db', s, u) {
      assert !Names(db, s, u);
    }
  }

  lemma OrphanStep(env: Env, w: World, c: Call, now: int, u: UserId)
    requires SoundWorld(w) && Allowed(env, w, c, now) && Orphan(w.db, u) && NotItsPassword(c, u)
    ensures StillOrphan(w.db, Effect(env, w.db, c, now), u)
  {
    match c {
      case CallLogin(email, password, raw) => OrphanKeptByLogin(env, w.db, email, password, raw, now, u);
      case CallVerify(token, raw) => OrphanKeptByVerify(env, w.db, token, raw, now, u);
      case CallRefresh(token, raw) => OrphanKeptByRefresh(env, w.db, token, raw, now, u);
      case CallLogout(token) => KeptByTokens(w.db, Logout(env, w.db, token), u);
      case CallLink(pending, password, raw) => OrphanKeptByLink(env, w.db, pending, password, raw, now, u);
      case CallSetPassword(v, password, hashed) => OrphanKeptByPassword(w.db, v, password, hashed, u);
      case CallUpdateProfile(v, name, avatar, status) =>
        var checked := CheckProfile(env, v, name, avatar, status);
        if checked.Ok? {
          OrphanKeptByEdit(w.db, v, checked.value, u);
        }
      case CallSync(_, _, _, _, _, _) => OrphanKeptBySync(env, w.db, c, u);
      case _ => OrphanKeptByAccounts(env, w, c, now, u);
    }
  }

  /** Once an orphan, always one: no run of calls gives it a password, an identity or a token, or frees its email. */
  lemma {:induction false} OrphanForGood(env: Env, w: World, run: seq<Timed>, u: UserId)
    requires Inv(w) && Legal(env, w, run) && Orphan(w.db, u)
    requires forall i :: 0 <= i < |run| ==> NotItsPassword(run[i].call, u)
    ensures StillOrphan(w.db, Run(env, w, run).db, u)
    decreases |run|
  {
    if run != [] {
      var c, now := run[0].call, run[0].at;
      OrphanStep(env, w, c, now, u);
      StepInv(env, w, c, now);
      OrphanForGood(env, After(env, w, c, now), run[1..], u);
    }
  }
}
