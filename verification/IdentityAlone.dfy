/** A call of the identity machine that nothing interrupts: its steps come to an end and do what the whole call does. */
module IdentityAlone {
  import opened Prelude
  import opened AuthStore
  import opened AuthSpec
  import opened IdentityMachine

  function Rank(pc: Pc): nat {
    match pc
    case SyncFindIdentity(_) => 8
    case SyncFindEmail(_) => 7
    case SyncCreateUser(_) => 6
    case SyncRecoverUser(_) => 5
    case SyncCreateIdentity(_, _) => 4
    case SyncRecoverIdentity(_) => 3
    case SyncReloadUser(_, _) => 2
    case SyncLoadUser(_, _) => 2
    case SyncSaveProfile(_, _, _) => 1
    case LinkFindEmail(_) => 4
    case LinkCreateIdentity(_, _, _) => 3
    case LinkRecoverIdentity(_, _, _) => 2
    case LinkMarkVerified(_, _, _) => 1
    case ConsumeToken(_, _) => 3
    case EditLoad(_, _) => 2
    case EditSave(_, _) => 1
    case Finished(_, _) => 0
    case Saved(_) => 0
  }

  lemma StepsDescend(db: Db, pc: Pc, id: UserId)
    ensures !Over(pc) ==> Rank(Next(db, pc, id).1) < Rank(pc)
  {
  }

  /** A call takes at most eight repository calls. */
  ghost function Alone(db: Db, pc: Pc, id: UserId): (Db, Pc)
    decreases Rank(pc)
  {
    if Over(pc) then (db, pc)
    else
      StepsDescend(db, pc, id);
      var (db', pc') := Next(db, pc, id);
      Alone(db', pc', id)
  }

  lemma AloneStep(db: Db, pc: Pc, id: UserId)
    ensures Alone(db, pc, id) == Alone(Next(db, pc, id).0, Next(db, pc, id).1, id)
  {
  }

  /** Run without interruption, the steps of SyncAuth0User do and answer what the whole call does. */
  lemma SyncAlone(env: Env, db: Db, subject: string, email: string, displayName: string, avatarUrl: string, id: UserId)
    requires id !in db.users && env.trim(subject) != "" && ProviderOf(env.upper, env.trim(subject)).Some?
    ensures var input := SyncInput(env.trim(subject), ProviderOf(env.upper, env.trim(subject)).value,
                                   env.Normalize(email), env.trim(displayName), env.trim(avatarUrl));
            var whole := SyncAuth0User(env, db, subject, email, displayName, avatarUrl, true, id);
            Alone(db, SyncFindIdentity(input), id) == (whole.db, Finished(env.trim(subject), whole.reply))
  {
    var input := SyncInput(env.trim(subject), ProviderOf(env.upper, env.trim(subject)).value,
                           env.Normalize(email), env.trim(displayName), env.trim(avatarUrl));
    var pc0 := SyncFindIdentity(input);
    var (db1, pc1) := Next(db, pc0, id);
    var (db2, pc2) := Next(db1, pc1, id);
    var (db3, pc3) := Next(db2, pc2, id);
    var (db4, pc4) := Next(db3, pc3, id);
    AloneStep(db, pc0, id);
    AloneStep(db1, pc1, id);
    AloneStep(db2, pc2, id);
    AloneStep(db3, pc3, id);
    AloneStep(db4, pc4, id);
    if input.subject in db.identities {
      SyncKnownAlone(env, db, subject, email, displayName, avatarUrl, id);
    }
  }

  lemma SyncKnownAlone(env: Env, db: Db, subject: string, email: string, displayName: string, avatarUrl: string,
      id: UserId)
    requires env.trim(subject) in db.identities && env.trim(subject) != ""
        && ProviderOf(env.upper, env.trim(subject)).Some?
    ensures var input := SyncInput(env.trim(subject), ProviderOf(env.upper, env.trim(subject)).value,
                                   env.Normalize(email), env.trim(displayName), env.trim(avatarUrl));
            var whole := SyncAuth0User(env, db, subject, email, displayName, avatarUrl, true, id);
            Alone(db, SyncFindIdentity(input), id) == (whole.db, Finished(env.trim(subject), whole.reply))
  {
    var input := SyncInput(env.trim(subject), ProviderOf(env.upper, env.trim(subject)).value,
                           env.Normalize(email), env.trim(displayName), env.trim(avatarUrl));
    var pc1 := SyncLoadUser(input, db.identities[input.subject].userId);
    var (db2, pc2) := Next(db, pc1, id);
    AloneStep(db, SyncFindIdentity(input), id);
    AloneStep(db, pc1, id);
    AloneStep(db2, pc2, id);
  }

  /** The same for ConfirmAccountLink, up to the token pair it goes on to issue. */
  lemma LinkAlone(env: Env, db: Db, pendingToken: string, password: string, raw: string, now: int, id: UserId)
    requires Constraints(db) && env.linkClaims(pendingToken, now).Some?
    requires var claims := env.linkClaims(pendingToken, now).value;
             claims.subject != "" && claims.email != "" && ProviderOf(env.upper, claims.subject).Some?
    ensures var claims := env.linkClaims(pendingToken, now).value;
            var input := LinkInput(claims.subject, ProviderOf(env.upper, claims.subject).value, claims.email,
                                   (hash: string) => env.passwordMatches(hash, password));
            var whole := ConfirmAccountLink(env, db, pendingToken, password, raw, now);
            var (db', pc') := Alone(db, LinkFindEmail(input), id);
            && db' == whole.db.(refresh := db.refresh)
            && pc' == Finished(claims.subject, if whole.reply.Ok? then Ok(whole.reply.value.user)
                  else Err(whole.reply.error))
  {
    var claims := env.linkClaims(pendingToken, now).value;
    var input := LinkInput(claims.subject, ProviderOf(env.upper, claims.subject).value, claims.email,
                           (hash: string) => env.passwordMatches(hash, password));
    AloneStep(db, LinkFindEmail(input), id);
    var owner := FindByEmail(db, claims.email);
    if owner.Some? {
      var row := db.users[owner.value];
      if row.passwordHash.Some? && input.matches(row.passwordHash.value) {
        LinkRowAlone(db, input, owner.value, id);
      }
    }
  }

  lemma LinkRowAlone(db: Db, link: LinkInput, u: UserId, id: UserId)
    requires Constraints(db) && u in db.users
    ensures var linked := Link(db, u, link.provider, LinkClaims(link.subject, link.email));
            Alone(db, LinkCreateIdentity(link, u, db.users[u]), id)
              == if linked.Err? then (db, Finished(link.subject, Err(linked.error)))
                 else (Verified(linked.value, u), Finished(link.subject, Ok(u)))
  {
    var row := db.users[u];
    var pc1 := LinkCreateIdentity(link, u, row);
    var (db2, pc2) := Next(db, pc1, id);
    var (db3, pc3) := Next(db2, pc2, id);
    AloneStep(db, pc1, id);
    AloneStep(db2, pc2, id);
    AloneStep(db3, pc3, id);
    SaveOwnRow(db2, u);
    assert row.emailVerified ==> row.(emailVerified := true) == row;
    assert db.users[u := row] == db.users;
  }

  lemma SaveOwnRow(db: Db, u: UserId)
    requires UniqueEmails(db) && u in db.users
    ensures SaveUser(db, u, db.users[u].(emailVerified := true)) == Some(Verified(db, u))
  {
    SaveKeepsEmail(db, u, db.users[u].(emailVerified := true));
  }

  /** The same for UpdateProfile, once its input has been checked. */
  lemma ProfileAlone(db: Db, u: UserId, edit: ProfileEdit, id: UserId)
    ensures var whole := EditProfile(db, u, edit);
            Alone(db, EditLoad(u, Profile(edit)), id) == (whole.db, Saved(whole.reply))
  {
    AloneStep(db, EditLoad(u, Profile(edit)), id);
    if u in db.users {
      AloneStep(db, EditSave(u, WithEdit(db.users[u], edit)), id);
    }
  }

  /** For SetPassword, once the password has been hashed. */
  lemma PasswordAlone(db: Db, u: UserId, password: string, hash: string, id: UserId)
    requires UniqueEmails(db) && ByteLength(password) >= 8
    ensures var whole := SetPassword(db, u, password, Some(hash));
            var (db', pc') := Alone(db, EditLoad(u, Password(hash)), id);
            && db' == whole.db
            && pc' == Saved(if whole.reply.Ok? then Ok(whole.db.users[u]) else Err(whole.reply.error))
  {
    AloneStep(db, EditLoad(u, Password(hash)), id);
    if u in db.users && db.users[u].passwordHash.None? {
      var row := db.users[u].(passwordHash := Some(hash));
      SaveKeepsEmail(db, u, row);
      AloneStep(db, EditSave(u, row), id);
    }
  }

  /** And for VerifyEmail, up to the token pair it goes on to issue. */
  lemma VerifyAlone(env: Env, db: Db, token: string, raw: string, now: int, id: UserId)
    requires UniqueEmails(db)
    ensures var whole := VerifyEmail(env, db, token, raw, now);
            var (db', pc') := Alone(db, ConsumeToken(env.hashToken(token), now), id);
            && db' == whole.db.(refresh := db.refresh)
            && pc' == Saved(if whole.reply.Ok? then Ok(db'.users[whole.reply.value.user]) else Err(whole.reply.error))
  {
    var hash := env.hashToken(token);
    AloneStep(db, ConsumeToken(hash, now), id);
    if hash in db.verification && db.verification[hash].expiresAt > now {
      var u := db.verification[hash].userId;
      var consumed := db.(verification := db.verification - {hash});
      AloneStep(consumed, EditLoad(u, Verify), id);
      if u in db.users {
        var row := db.users[u].(emailVerified := true);
        SaveKeepsEmail(consumed, u, row);
        AloneStep(consumed, EditSave(u, row), id);
      }
    }
  }

  lemma SaveKeepsEmail(db: Db, u: UserId, row: User)
    requires UniqueEmails(db) && u in db.users && row.email == db.users[u].email
    ensures SaveUser(db, u, row) == Some(db.(users := db.users[u := row]))
  {
    assert forall v :: HasEmail(db, v, row.email) ==> v == u;
  }
}
