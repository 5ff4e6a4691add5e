/**
 * What interleaved calls can do that none does alone: a save of a row read earlier can take a verification back, and
 * a sync can link a subject to a user that was there before it. Each is characterised exactly, and each has a run.
 */
module IdentityRaces {
  import opened Prelude
  import opened AuthStore
  import opened AuthSpec
  import opened AuthChanges
  import opened IdentityMachine
  import opened IdentityAlone

  lemma {:induction false} OneMoreStep(s: State, run: seq<Step>, t: nat, id: UserId)
    requires Legal(s, run) && Enabled(After(s, run), t, id)
    ensures Legal(s, run + [Step(t, id)])
    ensures After(s, run + [Step(t, id)]) == Apply(After(s, run), t, id)
    decreases |run|
  {
    var longer := run + [Step(t, id)];
    if run == [] {
      assert longer[1..] == [];
    } else {
      assert longer[1..] == run[1..] + [Step(t, id)];
      OneMoreStep(Apply(s, run[0].thread, run[0].id), run[1..], t, id);
    }
  }

  lemma {:induction false} RunOn(s: State, run: seq<Step>, more: seq<Step>)
    requires Legal(s, run) && Legal(After(s, run), more)
    ensures Legal(s, run + more) && After(s, run + more) == After(After(s, run), more)
    decreases |run|
  {
    if run == [] {
      assert [] + more == more;
    } else {
      assert (run + more)[1..] == run[1..] + more;
      RunOn(Apply(s, run[0].thread, run[0].id), run[1..], more);
    }
  }

  // ----- verification taken back -----

  ghost predicate IsVerified(db: Db, u: UserId) {
    u in db.users && db.users[u].emailVerified
  }

  /** The goroutine is about to save a row of `u` that it read before `u` was verified. */
  predicate HoldsUnverified(pc: Pc, u: UserId) {
    (pc.SyncSaveProfile? || pc.EditSave?) && pc.user == u && !pc.row.emailVerified
  }

  /** A step takes a verification back exactly when it saves such a row and the save goes through. */
  lemma UnverifiesExactly(db: Db, pc: Pc, id: UserId, u: UserId)
    requires id !in db.users && IsVerified(db, u)
    ensures !IsVerified(Next(db, pc, id).0, u) <==> HoldsUnverified(pc, u) && SaveUser(db, u, pc.row).Some?
  {
  }

  lemma NoNewHolder(db: Db, pc: Pc, id: UserId, u: UserId)
    requires IsVerified(db, u) && !HoldsUnverified(pc, u)
    ensures !HoldsUnverified(Next(db, pc, id).1, u)
  {
  }

  /** So a verified user stays verified in every run that starts with nobody holding such a row. */
  lemma {:induction false} StaysVerified(s: State, run: seq<Step>, u: UserId)
    requires Legal(s, run) && IsVerified(s.db, u)
    requires forall t :: 0 <= t < |s.pc| ==> !HoldsUnverified(s.pc[t], u)
    ensures IsVerified(After(s, run).db, u)
    decreases |run|
  {
    if run != [] {
      var t, id := run[0].thread, run[0].id;
      UnverifiesExactly(s.db, s.pc[t], id, u);
      NoNewHolder(s.db, s.pc[t], id, u);
      StaysVerified(Apply(s, t, id), run[1..], u);
    }
  }

  lemma {:induction false} FreshId(ids: set<UserId>) returns (id: UserId)
    ensures id !in ids && forall x :: x in ids ==> x < id
    decreases |ids|
  {
    id := 0;
    if ids != {} {
      var x := SomeMember(ids);
      var other := FreshId(ids - {x});
      id := if other > x then other else x + 1;
      assert forall y :: y in ids ==> y == x || y in ids - {x};
    } else {
      assert forall y :: y !in ids;
    }
  }

  /** Conversely, a goroutine that holds such a row has only to go on, if its save goes through. */
  lemma HolderUnverifies(s: State, t: nat, u: UserId) returns (run: seq<Step>)
    requires t < |s.pc| && IsVerified(s.db, u) && HoldsUnverified(s.pc[t], u) && SaveUser(s.db, u, s.pc[t].row).Some?
    ensures Legal(s, run) && !IsVerified(After(s, run).db, u)
  {
    var id := FreshId(s.db.users.Keys);
    run := [Step(t, id)];
    SaveBack(s, t, u, id);
  }

  lemma SaveBack(s: State, t: nat, u: UserId, id: UserId)
    requires t < |s.pc| && id !in s.db.users
    requires IsVerified(s.db, u) && HoldsUnverified(s.pc[t], u) && SaveUser(s.db, u, s.pc[t].row).Some?
    ensures Legal(s, [Step(t, id)]) && After(s, [Step(t, id)]) == Apply(s, t, id)
    ensures !IsVerified(Apply(s, t, id).db, u)
    ensures Apply(s, t, id).pc == s.pc[t := if s.pc[t].EditSave? then Saved(Ok(s.pc[t].row)) else Succeed(s.pc[t], u)]
  {
    OneMoreStep(s, [], t, id);
    assert [] + [Step(t, id)] == [Step(t, id)];
    UnverifiesExactly(s.db, s.pc[t], id, u);
  }

  /** When the rows held have the user's email still, some run un-verifies the user exactly when some row is held. */
  lemma CanUnverifyExactly(s: State, u: UserId)
    requires UniqueEmails(s.db) && IsVerified(s.db, u)
    requires forall t :: 0 <= t < |s.pc| && HoldsUnverified(s.pc[t], u) ==> s.pc[t].row.email == s.db.users[u].email
    ensures (exists run :: Legal(s, run) && !IsVerified(After(s, run).db, u))
       <==> (exists t :: 0 <= t < |s.pc| && HoldsUnverified(s.pc[t], u))
  {
    if t :| 0 <= t < |s.pc| && HoldsUnverified(s.pc[t], u) {
      SaveKeepsEmail(s.db, u, s.pc[t].row);
      var run := HolderUnverifies(s, t, u);
    } else if run :| Legal(s, run) && !IsVerified(After(s, run).db, u) {
      StaysVerified(s, run, u);
      assert false;
    }
  }

  /**
   * The lost update: a sync of the linked subject loads the row after the link has inserted the identity and before
   * it has marked the user verified; it then saves its row over the mark. Both calls succeed. This happens to any
   * unverified user with a password whose provider reports a changed profile.
   */
  lemma VerificationLost(db: Db, u: UserId, sync: SyncInput, link: LinkInput, id: UserId)
      returns (before: seq<Step>, after: seq<Step>)
    requires Constraints(db) && u in db.users && id !in db.users
    requires var row := db.users[u];
             && !row.emailVerified && row.passwordHash.Some? && link.matches(row.passwordHash.value)
             && link.email == row.email
             && sync.email in ["", row.email] && WithProfile(row, sync.email, sync.displayName, sync.avatarUrl) != row
    requires link.subject == sync.subject
             && !IdentityConflicts(db, link.subject, Identity(u, link.provider, link.email, false))
    ensures var s := State(db, [SyncFindIdentity(sync), LinkFindEmail(link)]);
            && Legal(s, before) && IsVerified(After(s, before).db, u)
            && Legal(After(s, before), after) && !IsVerified(After(After(s, before), after).db, u)
            && After(After(s, before), after).pc
               == [Finished(sync.subject, Ok(u)), Finished(sync.subject, Ok(u))]
  {
    var s := State(db, [SyncFindIdentity(sync), LinkFindEmail(link)]);
    var row := db.users[u];
    var stale := WithProfile(row, sync.email, sync.displayName, sync.avatarUrl);
    var linked := db.(identities := db.identities[link.subject := Identity(u, link.provider, link.email, false)]);
    OwnerOfEmail(db, u);
    before := [];
    OneMoreStep(s, before, 1, id);
    before := before + [Step(1, id)];
    assert After(s, before) == State(db, [SyncFindIdentity(sync), LinkCreateIdentity(link, u, row)]);
    OneMoreStep(s, before, 1, id);
    before := before + [Step(1, id)];
    assert After(s, before) == State(linked, [SyncFindIdentity(sync), LinkMarkVerified(link, u, row)]);
    OneMoreStep(s, before, 0, id);
    before := before + [Step(0, id)];
    assert After(s, before) == State(linked, [SyncLoadUser(sync, u), LinkMarkVerified(link, u, row)]);
    OneMoreStep(s, before, 0, id);
    before := before + [Step(0, id)];
    assert After(s, before) == State(linked, [SyncSaveProfile(sync, u, stale), LinkMarkVerified(link, u, row)]);
    SaveOwnRow(linked, u);
    OneMoreStep(s, before, 1, id);
    before := before + [Step(1, id)];
    var marked := Verified(linked, u);
    var done := Finished(sync.subject, Ok(u));
    assert After(s, before) == State(marked, [SyncSaveProfile(sync, u, stale), done]);
    SaveStaleRow(db, u, stale, marked);
    after := [Step(0, id)];
    SaveBack(After(s, before), 0, u, id);
  }

  lemma SaveStaleRow(db: Db, u: UserId, row: User, db': Db)
    requires UniqueEmails(db) && u in db.users && row.email == db.users[u].email
    requires db'.users == db.users[u := db.users[u].(emailVerified := true)]
    ensures SaveUser(db', u, row).Some?
  {
    assert HasEmail(db, u, row.email);
    assert forall v :: v != u && HasEmail(db', v, row.email) ==> HasEmail(db, v, row.email);
  }

  /** One such user, so that the run above is one that exists. */
  lemma VerificationCanBeLost(env: Env, raw: string, now: int) returns (s: State, before: seq<Step>, after: seq<Step>)
    ensures Init(s) && Legal(s, before) && Legal(After(s, before), after)
    ensures IsVerified(After(s, before).db, 1) && !IsVerified(After(After(s, before), after).db, 1)
    ensures !SessionsVerified(IssueTokenPair(env, After(After(s, before), after).db, 1, raw, now).0)
  {
    var row := User("ann@example.org", "Ann", "", "", Some("hash"), false);
    var db := Db(map[1 := row], map[], map[], map[]);
    var sync := SyncInput("google|9", "GOOGLE", "", "Annabel", "");
    var link := LinkInput("google|9", "GOOGLE", "ann@example.org", (hash: string) => true);
    assert |"Annabel"| != |"Ann"|;
    before, after := VerificationLost(db, 1, sync, link, 2);
    s := State(db, [SyncFindIdentity(sync), LinkFindEmail(link)]);
    SessionOfUnverified(env, After(After(s, before), after).db, 1, raw, now);
  }

  /**
   * The same by a user's own edit: while a link has inserted the identity and not yet marked the user, a request
   * that authenticates by that identity starts to update the profile; its row is saved over the mark.
   */
  lemma VerificationLostToEdit(db: Db, u: UserId, sync: SyncInput, edit: ProfileEdit, link: LinkInput, id: UserId)
      returns (before: seq<Step>, after: seq<Step>)
    requires Constraints(db) && u in db.users && id !in db.users
    requires var row := db.users[u];
             && !row.emailVerified && row.passwordHash.Some? && link.matches(row.passwordHash.value)
             && link.email == row.email && WithEdit(row, edit) != row
             && WithProfile(row, sync.email, sync.displayName, sync.avatarUrl) == row
    requires link.subject == sync.subject
             && !IdentityConflicts(db, link.subject, Identity(u, link.provider, link.email, false))
    ensures var s := State(db, [SyncFindIdentity(sync), LinkFindEmail(link), EditLoad(u, Profile(edit))]);
            var done := Finished(sync.subject, Ok(u));
            && Legal(s, before) && IsVerified(After(s, before).db, u)
            && After(s, before).pc == [done, done, EditSave(u, WithEdit(db.users[u], edit))]
            && Legal(After(s, before), after) && !IsVerified(After(After(s, before), after).db, u)
            && After(After(s, before), after).pc == [done, done, Saved(Ok(WithEdit(db.users[u], edit)))]
  {
    var s := State(db, [SyncFindIdentity(sync), LinkFindEmail(link), EditLoad(u, Profile(edit))]);
    var row := db.users[u];
    var stale := WithEdit(row, edit);
    var linked := db.(identities := db.identities[link.subject := Identity(u, link.provider, link.email, false)]);
    var done := Finished(sync.subject, Ok(u));
    before := LinkThenSync(db, u, sync, edit, link, id);
    OneMoreStep(s, before, 2, id);
    before := before + [Step(2, id)];
    assert After(s, before) == State(linked, [done, LinkMarkVerified(link, u, row), EditSave(u, stale)]);
    SaveOwnRow(linked, u);
    OneMoreStep(s, before, 1, id);
    before := before + [Step(1, id)];
    var marked := Verified(linked, u);
    assert After(s, before) == State(marked, [done, done, EditSave(u, stale)]);
    SaveStaleRow(db, u, stale, marked);
    after := [Step(2, id)];
    SaveBack(After(s, before), 2, u, id);
  }

  /** The link inserts the identity, then the sync of that subject is answered with no change. */
  lemma LinkThenSync(db: Db, u: UserId, sync: SyncInput, edit: ProfileEdit, link: LinkInput, id: UserId)
      returns (run: seq<Step>)
    requires Constraints(db) && u in db.users && id !in db.users
    requires var row := db.users[u];
             && !row.emailVerified && row.passwordHash.Some? && link.matches(row.passwordHash.value)
             && link.email == row.email
             && WithProfile(row, sync.email, sync.displayName, sync.avatarUrl) == row
    requires link.subject == sync.subject
             && !IdentityConflicts(db, link.subject, Identity(u, link.provider, link.email, false))
    ensures var s := State(db, [SyncFindIdentity(sync), LinkFindEmail(link), EditLoad(u, Profile(edit))]);
            var identity := Identity(u, link.provider, link.email, false);
            && Legal(s, run)
            && After(s, run) == State(db.(identities := db.identities[link.subject := identity]),
                [Finished(sync.subject, Ok(u)), LinkMarkVerified(link, u, db.users[u]), EditLoad(u, Profile(edit))])
  {
    var change := EditLoad(u, Profile(edit));
    var s := State(db, [SyncFindIdentity(sync), LinkFindEmail(link), change]);
    var row := db.users[u];
    var linked := db.(identities := db.identities[link.subject := Identity(u, link.provider, link.email, false)]);
    OwnerOfEmail(db, u);
    run := [];
    OneMoreStep(s, run, 1, id);
    run := run + [Step(1, id)];
    assert After(s, run) == State(db, [SyncFindIdentity(sync), LinkCreateIdentity(link, u, row), change]);
    OneMoreStep(s, run, 1, id);
    run := run + [Step(1, id)];
    assert After(s, run) == State(linked, [SyncFindIdentity(sync), LinkMarkVerified(link, u, row), change]);
    OneMoreStep(s, run, 0, id);
    run := run + [Step(0, id)];
    assert After(s, run) == State(linked, [SyncLoadUser(sync, u), LinkMarkVerified(link, u, row), change]);
    OneMoreStep(s, run, 0, id);
    run := run + [Step(0, id)];
  }

  /**
   * The link then goes on to issue a token pair, so that a session is stored for a user who is not verified: when
   * calls overlap, sessions need not belong to verified users.
   */
  lemma SessionOfUnverified(env: Env, db: Db, u: UserId, raw: string, now: int)
    requires !IsVerified(db, u)
    ensures !SessionsVerified(IssueTokenPair(env, db, u, raw, now).0)
  {
    assert IssueTokenPair(env, db, u, raw, now).0.refresh[env.hashToken(raw)].userId == u;
  }

  // ----- a subject linked without consent -----

  /** A sync comes to link its subject to a user that is there already exactly by recovering from a failed insert. */
  lemma LinksExistingExactly(db: Db, pc: Pc, id: UserId, u: UserId)
    requires id !in db.users && u in db.users
    ensures var pc' := Next(db, pc, id).1;
            (pc'.SyncCreateIdentity? && pc'.user == u) <==>
              (pc.SyncRecoverUser? && FindByEmail(db, pc.sync.email) == Some(u))
  {
  }

  /** In the run, goroutine `t`, a sync, links its subject to `u`. */
  ghost predicate LinksTo(s: State, run: seq<Step>, t: nat, u: UserId)
    requires Legal(s, run)
    decreases |run|
  {
    && run != []
    && (|| (run[0].thread == t && InsertsFor(s.db, s.pc[t], u))
        || LinksTo(Apply(s, run[0].thread, run[0].id), run[1..], t, u))
  }

  ghost predicate InsertsFor(db: Db, pc: Pc, u: UserId) {
    && pc.SyncCreateIdentity? && pc.user == u
    && CreateIdentity(db, pc.sync.subject, Identity(u, pc.sync.provider, pc.sync.email, true)).Some?
  }

  /** In the run, goroutine `t`, after its insert of a new user has failed, finds `u` by the email. */
  ghost predicate RecoversTo(s: State, run: seq<Step>, t: nat, u: UserId)
    requires Legal(s, run)
    decreases |run|
  {
    && run != []
    && (|| (run[0].thread == t && s.pc[t].SyncRecoverUser? && FindByEmail(s.db, s.pc[t].sync.email) == Some(u))
        || RecoversTo(Apply(s, run[0].thread, run[0].id), run[1..], t, u))
  }

  /** A sync that links its subject to a user it did not create got to that user by the recovery, in every run. */
  lemma {:induction false} LinksExistingByRecovery(s: State, run: seq<Step>, t: nat, u: UserId)
    requires Legal(s, run) && t < |s.pc| && u in s.db.users && LinksTo(s, run, t, u)
    requires !(s.pc[t].SyncCreateIdentity? && s.pc[t].user == u)
    ensures RecoversTo(s, run, t, u)
    decreases |run|
  {
    var v, id := run[0].thread, run[0].id;
    var s' := Apply(s, v, id);
    LinksExistingExactly(s.db, s.pc[v], id, u);
    StepGrows(s.db, s.pc[v], id);
    if !(s'.pc[t].SyncCreateIdentity? && s'.pc[t].user == u) {
      LinksExistingByRecovery(s', run[1..], t, u);
    }
  }

  /** A sync that nothing interrupts links a new subject to the user it creates and to no other. */
  lemma AloneLinksItsOwn(db: Db, sync: SyncInput, id: UserId)
    requires id !in db.users && sync.subject !in db.identities
    ensures var db' := Alone(db, SyncFindIdentity(sync), id).0;
            sync.subject in db'.identities ==> db'.identities[sync.subject].userId == id
  {
    AloneStep(db, SyncFindIdentity(sync), id);
    AloneStep(db, SyncFindEmail(sync), id);
    if sync.email != "" && FindByEmail(db, sync.email).None? {
      AloneStep(db, SyncCreateUser(sync), id);
      NewIdentityAlone(CreateUser(db, id, NewUser(sync)).value, sync, id, id);
    }
  }

  lemma NewIdentityAlone(db: Db, sync: SyncInput, u: UserId, id: UserId)
    requires sync.subject !in db.identities
    ensures var db' := Alone(db, SyncCreateIdentity(sync, u), id).0;
            sync.subject in db'.identities ==> db'.identities[sync.subject].userId == u
  {
    var (db', pc') := Next(db, SyncCreateIdentity(sync, u), id);
    AloneStep(db, SyncCreateIdentity(sync, u), id);
    AloneStep(db', pc', id);
  }

  /**
   * The race: after a sync has found its email free, a sync of another subject moves its user to that email. The
   * first sync fails to insert a user, finds that user by the email, and links its subject to it; no call of
   * ConfirmAccountLink has asked the user.
   */
  lemma LinkedWithoutConsent(db: Db, u: UserId, sync: SyncInput, other: SyncInput, id: UserId) returns (run: seq<Step>)
    requires Constraints(db) && u in db.users && id !in db.users
    requires sync.email != "" && FindByEmail(db, sync.email).None? && other.email == sync.email
    requires Names(db, other.subject, u)
    requires !IdentityConflicts(db, sync.subject, Identity(u, sync.provider, sync.email, true))
    ensures var s := State(db, [SyncFindIdentity(sync), SyncFindIdentity(other)]);
            && Legal(s, run) && Names(After(s, run).db, sync.subject, u)
            && After(s, run).pc == [Finished(sync.subject, Ok(u)), Finished(other.subject, Ok(u))]
  {
    var s := State(db, [SyncFindIdentity(sync), SyncFindIdentity(other)]);
    var row := WithProfile(db.users[u], other.email, other.displayName, other.avatarUrl);
    var moved := db.(users := db.users[u := row]);
    var done := Finished(other.subject, Ok(u));
    MovedOwnsEmail(db, u, row, sync.email);
    run := MoveIntoGap(db, u, sync, other, id);
    SameConflicts(db, moved, sync.subject, Identity(u, sync.provider, sync.email, true));
    var more := RecoverInto(moved, u, sync, done, id);
    RunOn(s, run, more);
    run := run + more;
  }

  /** Its last three: the insert of the user fails, the email finds the other user, the identity names that one. */
  lemma RecoverInto(db: Db, u: UserId, sync: SyncInput, done: Pc, id: UserId) returns (run: seq<Step>)
    requires id !in db.users && FindByEmail(db, sync.email) == Some(u)
    requires !IdentityConflicts(db, sync.subject, Identity(u, sync.provider, sync.email, true))
    ensures var s := State(db, [SyncCreateUser(sync), done]);
            && Legal(s, run) && Names(After(s, run).db, sync.subject, u)
            && After(s, run).pc == [Finished(sync.subject, Ok(u)), done]
  {
    var s := State(db, [SyncCreateUser(sync), done]);
    run := [];
    OneMoreStep(s, run, 0, id);
    run := run + [Step(0, id)];
    assert After(s, run) == State(db, [SyncRecoverUser(sync), done]);
    OneMoreStep(s, run, 0, id);
    run := run + [Step(0, id)];
    assert After(s, run) == State(db, [SyncCreateIdentity(sync, u), done]);
    OneMoreStep(s, run, 0, id);
    run := run + [Step(0, id)];
  }

  /** Its first five steps: the first sync finds the email free, then the other moves its user there. */
  lemma MoveIntoGap(db: Db, u: UserId, sync: SyncInput, other: SyncInput, id: UserId) returns (run: seq<Step>)
    requires u in db.users && id !in db.users && sync.subject !in db.identities && Names(db, other.subject, u)
    requires sync.email != "" && FindByEmail(db, sync.email).None? && other.email == sync.email
    ensures var s := State(db, [SyncFindIdentity(sync), SyncFindIdentity(other)]);
            var row := WithProfile(db.users[u], other.email, other.displayName, other.avatarUrl);
            && Legal(s, run)
            && After(s, run)
               == State(db.(users := db.users[u := row]), [SyncCreateUser(sync), Finished(other.subject, Ok(u))])
  {
    var s := State(db, [SyncFindIdentity(sync), SyncFindIdentity(other)]);
    var row := WithProfile(db.users[u], other.email, other.displayName, other.avatarUrl);
    MovedOwnsEmail(db, u, row, sync.email);
    run := [];
    OneMoreStep(s, run, 0, id);
    run := run + [Step(0, id)];
    assert After(s, run) == State(db, [SyncFindEmail(sync), SyncFindIdentity(other)]);
    OneMoreStep(s, run, 0, id);
    run := run + [Step(0, id)];
    assert After(s, run) == State(db, [SyncCreateUser(sync), SyncFindIdentity(other)]);
    OneMoreStep(s, run, 1, id);
    run := run + [Step(1, id)];
    assert After(s, run) == State(db, [SyncCreateUser(sync), SyncLoadUser(other, u)]);
    OneMoreStep(s, run, 1, id);
    run := run + [Step(1, id)];
    assert After(s, run) == State(db, [SyncCreateUser(sync), SyncSaveProfile(other, u, row)]);
    OneMoreStep(s, run, 1, id);
    run := run + [Step(1, id)];
  }

  lemma SameConflicts(db: Db, db': Db, subject: string, row: Identity)
    requires db'.identities == db.identities && db'.users.Keys == db.users.Keys
    ensures IdentityConflicts(db', subject, row) <==> IdentityConflicts(db, subject, row)
  {
  }

  lemma MovedOwnsEmail(db: Db, u: UserId, row: User, email: string)
    requires u in db.users && FindByEmail(db, email).None? && row.email == email
    ensures row != db.users[u] && SaveUser(db, u, row) == Some(db.(users := db.users[u := row]))
    ensures FindByEmail(db.(users := db.users[u := row]), email) == Some(u)
  {
    var db' := db.(users := db.users[u := row]);
    assert !HasEmail(db, u, email);
    assert HasEmail(db', u, email);
    assert forall v :: v != u ==> !HasEmail(db, v, email) && !HasEmail(db', v, email);
  }

  /** One such pair of syncs, of a user with a password. */
  lemma ConsentCanBeSkipped() returns (s: State, run: seq<Step>)
    ensures Init(s) && Legal(s, run) && s.db.users.Keys == {1} && s.db.users[1].passwordHash.Some?
    ensures forall t :: 0 <= t < |s.pc| ==> s.pc[t].SyncFindIdentity?
    ensures "github|9" !in s.db.identities && Names(After(s, run).db, "github|9", 1)
  {
    var row := User("ann@example.org", "Ann", "", "", Some("hash"), true);
    var identity := Identity(1, "GOOGLE", "ann@example.org", false);
    var db := Db(map[1 := row], map["google|9" := identity], map[], map[]);
    var sync := SyncInput("github|9", "GITHUB", "bob@example.org", "Bob", "");
    var other := SyncInput("google|9", "GOOGLE", "bob@example.org", "Ann", "");
    assert "ann@example.org"[0] != "bob@example.org"[0] && "github|9"[1] != "google|9"[1] && "GITHUB"[1] != "GOOGLE"[1];
    assert forall u :: !HasEmail(db, u, sync.email);
    s := State(db, [SyncFindIdentity(sync), SyncFindIdentity(other)]);
    run := LinkedWithoutConsent(db, 1, sync, other, 2);
  }
}
