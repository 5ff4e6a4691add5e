/**
 * Users that a login through a provider creates and then leaves without an identity: nobody can log in as them, and
 * nobody else can have their email. One login alone never leaves one; two of one subject can.
 */
module OrphanRaces {
  import opened Prelude
  import opened AuthStore
  import opened AuthSpec
  import opened IdentityMachine
  import opened IdentityAlone
  import opened IdentityRaces

  /**
   * A sync's insert of the identity leaves its user without one exactly when the user had none and the subject is
   * taken; then it goes on to the recovery, which will answer with the other user.
   */
  lemma OrphansExactly(db: Db, sync: SyncInput, u: UserId, id: UserId)
    requires u in db.users && !HasIdentity(db, u)
    ensures var (db', pc') := Next(db, SyncCreateIdentity(sync, u), id);
            && (!HasIdentity(db', u) <==> sync.subject in db.identities)
            && (!HasIdentity(db', u) <==> pc' == SyncRecoverIdentity(sync))
            && (HasIdentity(db', u) <==> Names(db', sync.subject, u))
  {
    var row := Identity(u, sync.provider, sync.email, true);
    forall s | s in db.identities ensures !Clash(db.identities[s], row) {
      assert !Names(db, s, u);
    }
    var (db', pc') := Next(db, SyncCreateIdentity(sync, u), id);
    if sync.subject !in db.identities {
      assert Names(db', sync.subject, u);
    } else {
      assert db' == db;
    }
  }

  /** In the run, goroutine `t`, a sync, creates user `u`. */
  ghost predicate Creates(s: State, run: seq<Step>, t: nat, u: UserId)
    requires Legal(s, run)
    decreases |run|
  {
    && run != []
    && (|| (run[0] == Step(t, u) && s.pc[t].SyncCreateUser? && CreateUser(s.db, u, NewUser(s.pc[t].sync)).Some?)
        || Creates(Apply(s, run[0].thread, run[0].id), run[1..], t, u))
  }

  /** In the run, goroutine `t` recovers from a failed insert of an identity to a user other than `u`. */
  ghost predicate RecoversElsewhere(s: State, run: seq<Step>, t: nat, u: UserId)
    requires Legal(s, run)
    decreases |run|
  {
    && run != []
    && (|| (run[0].thread == t && s.pc[t].SyncRecoverIdentity? && NamesAnother(s.db, s.pc[t].sync.subject, u))
        || RecoversElsewhere(Apply(s, run[0].thread, run[0].id), run[1..], t, u))
  }

  predicate NamesAnother(db: Db, subject: string, u: UserId) {
    subject in db.identities && db.identities[subject].userId != u
  }

  lemma {:induction false} RunGrows(s: State, run: seq<Step>)
    requires Legal(s, run)
    ensures Grows(s.db, After(s, run).db)
    decreases |run|
  {
    if run != [] {
      StepGrows(s.db, s.pc[run[0].thread], run[0].id);
      RunGrows(Apply(s, run[0].thread, run[0].id), run[1..]);
    }
  }

  lemma IdentityStays(s: State, run: seq<Step>, u: UserId)
    requires Legal(s, run) && HasIdentity(s.db, u)
    ensures HasIdentity(After(s, run).db, u)
  {
    RunGrows(s, run);
    var subject :| Names(s.db, subject, u);
    assert Names(After(s, run).db, subject, u);
  }

  lemma {:induction false} OrphanFromRecovery(s: State, run: seq<Step>, t: nat, u: UserId)
    requires Legal(s, run) && t < |s.pc| && t < |After(s, run).pc|
    requires s.pc[t].SyncRecoverIdentity? && NamesAnother(s.db, s.pc[t].sync.subject, u)
    requires Over(After(s, run).pc[t])
    ensures RecoversElsewhere(s, run, t, u)
    decreases |run|
  {
    if run[0].thread != t {
      StepGrows(s.db, s.pc[run[0].thread], run[0].id);
      OrphanFromRecovery(Apply(s, run[0].thread, run[0].id), run[1..], t, u);
    }
  }

  lemma {:induction false} OrphanFromInsert(s: State, run: seq<Step>, t: nat, u: UserId)
    requires Legal(s, run) && t < |s.pc| && t < |After(s, run).pc|
    requires s.pc[t].SyncCreateIdentity? && s.pc[t].user == u && u in s.db.users
    requires Over(After(s, run).pc[t]) && !HasIdentity(After(s, run).db, u)
    ensures RecoversElsewhere(s, run, t, u)
    decreases |run|
  {
    var v, id := run[0].thread, run[0].id;
    var s' := Apply(s, v, id);
    if HasIdentity(s.db, u) {
      IdentityStays(s, run, u);
    } else if v != t {
      StepGrows(s.db, s.pc[v], id);
      OrphanFromInsert(s', run[1..], t, u);
    } else {
      OrphansExactly(s.db, s.pc[t].sync, u, id);
      if HasIdentity(s'.db, u) {
        IdentityStays(s', run[1..], u);
      } else {
        assert !Names(s.db, s.pc[t].sync.subject, u);
        OrphanFromRecovery(s', run[1..], t, u);
      }
    }
  }

  /** A sync that has ended and left the user it created without an identity recovered to another user, in every run. */
  lemma {:induction false} OrphanByRecovery(s: State, run: seq<Step>, t: nat, u: UserId)
    requires Legal(s, run) && t < |s.pc| && t < |After(s, run).pc|
    requires Creates(s, run, t, u) && Over(After(s, run).pc[t]) && !HasIdentity(After(s, run).db, u)
    ensures RecoversElsewhere(s, run, t, u)
    decreases |run|
  {
    var s' := Apply(s, run[0].thread, run[0].id);
    if run[0] == Step(t, u) && s.pc[t].SyncCreateUser? && CreateUser(s.db, u, NewUser(s.pc[t].sync)).Some? {
      OrphanFromInsert(s', run[1..], t, u);
    } else {
      OrphanByRecovery(s', run[1..], t, u);
    }
  }

  /** A sync that nothing interrupts gives the user it creates the identity of its subject. */
  lemma AloneGivesIdentity(db: Db, sync: SyncInput, id: UserId)
    requires Constraints(db) && id !in db.users
    ensures var db' := Alone(db, SyncFindIdentity(sync), id).0;
            id in db'.users ==> Names(db', sync.subject, id)
  {
    AloneStep(db, SyncFindIdentity(sync), id);
    if sync.subject in db.identities {
      KnownCreatesNobody(db, sync, id);
    } else {
      AloneStep(db, SyncFindEmail(sync), id);
      if sync.email != "" && FindByEmail(db, sync.email).None? {
        AloneStep(db, SyncCreateUser(sync), id);
        var created := CreateUser(db, id, NewUser(sync)).value;
        OrphansExactly(created, sync, id, id);
        AloneStep(created, SyncCreateIdentity(sync, id), id);
      }
    }
  }

  lemma KnownCreatesNobody(db: Db, sync: SyncInput, id: UserId)
    requires Constraints(db) && id !in db.users && sync.subject in db.identities
    ensures id !in Alone(db, SyncLoadUser(sync, db.identities[sync.subject].userId), id).0.users
  {
    var u := db.identities[sync.subject].userId;
    var (db', pc') := Next(db, SyncLoadUser(sync, u), id);
    AloneStep(db, SyncLoadUser(sync, u), id);
    AloneStep(db', pc', id);
  }

  /** Tokens belong to users there are. */
  ghost predicate TokensHaveUsers(db: Db) {
    && (forall h :: h in db.refresh ==> db.refresh[h].userId in db.users)
    && (forall h :: h in db.verification ==> db.verification[h].userId in db.users)
  }

  /**
   * The race: two logins of one new subject report different emails, both free. Both create a user; the one whose
   * identity comes second answers with the other's user and leaves its own an orphan.
   */
  lemma UserOrphaned(db: Db, first: SyncInput, second: SyncInput, a: UserId, b: UserId, c: UserId)
      returns (run: seq<Step>)
    requires Constraints(db) && TokensHaveUsers(db)
    requires a !in db.users && b !in db.users && c !in db.users && a != b && a != c && b != c
    requires first.subject == second.subject && first.subject !in db.identities && first.email != second.email
    requires first.email != "" && FindByEmail(db, first.email).None?
    requires second.email != "" && FindByEmail(db, second.email).None?
    ensures var s := State(db, [SyncFindIdentity(first), SyncFindIdentity(second)]);
            && Legal(s, run)
            && After(s, run).pc == [Finished(first.subject, Ok(a)), Finished(first.subject, Ok(a))]
            && Orphan(After(s, run).db, b) && After(s, run).db.users[b] == NewUser(second)
  {
    var s := State(db, [SyncFindIdentity(first), SyncFindIdentity(second)]);
    var created := db.(users := db.users[a := NewUser(first)][b := NewUser(second)]);
    var row := Identity(a, first.provider, first.email, true);
    var linked := created.(identities := created.identities[first.subject := row]);
    run := BothCreate(db, first, second, a, b, c);
    assert !IdentityConflicts(created, first.subject, row);
    var more := SecondLoses(created, first, second, a, b, c);
    RunOn(s, run, more);
    run := run + more;
    forall subject ensures !Names(linked, subject, b) {
      assert subject in db.identities ==> db.identities[subject].userId in db.users;
    }
  }

  /** The second finds the subject taken and answers with the first one's user. */
  lemma SecondLoses(db: Db, first: SyncInput, second: SyncInput, a: UserId, b: UserId, c: UserId)
      returns (run: seq<Step>)
    requires a in db.users && c !in db.users && first.subject == second.subject
    requires !IdentityConflicts(db, first.subject, Identity(a, first.provider, first.email, true))
    ensures var s := State(db, [SyncCreateIdentity(first, a), SyncCreateIdentity(second, b)]);
            var row := Identity(a, first.provider, first.email, true);
            var done := Finished(first.subject, Ok(a));
            && Legal(s, run)
            && After(s, run) == State(db.(identities := db.identities[first.subject := row]), [done, done])
  {
    var s := State(db, [SyncCreateIdentity(first, a), SyncCreateIdentity(second, b)]);
    var row := Identity(a, first.provider, first.email, true);
    var linked := db.(identities := db.identities[first.subject := row]);
    var done := Finished(first.subject, Ok(a));
    run := [];
    OneMoreStep(s, run, 0, c);
    run := run + [Step(0, c)];
    assert After(s, run) == State(linked, [done, SyncCreateIdentity(second, b)]);
    OneMoreStep(s, run, 1, c);
    run := run + [Step(1, c)];
    assert After(s, run) == State(linked, [done, SyncRecoverIdentity(second)]);
    OneMoreStep(s, run, 1, c);
    run := run + [Step(1, c)];
    assert After(s, run) == State(linked, [done, SyncReloadUser(second, a)]);
    OneMoreStep(s, run, 1, c);
    run := run + [Step(1, c)];
  }

  /** Up to the two inserts of the identity: both emails are free, so both users are created. */
  lemma BothCreate(db: Db, first: SyncInput, second: SyncInput, a: UserId, b: UserId, c: UserId)
      returns (run: seq<Step>)
    requires a !in db.users && b !in db.users && c !in db.users && a != b && a != c && b != c
    requires first.subject == second.subject && first.subject !in db.identities && first.email != second.email
    requires first.email != "" && FindByEmail(db, first.email).None?
    requires second.email != "" && FindByEmail(db, second.email).None?
    ensures var s := State(db, [SyncFindIdentity(first), SyncFindIdentity(second)]);
            && Legal(s, run)
            && After(s, run) == State(db.(users := db.users[a := NewUser(first)][b := NewUser(second)]),
                                      [SyncCreateIdentity(first, a), SyncCreateIdentity(second, b)])
  {
    var s := State(db, [SyncFindIdentity(first), SyncFindIdentity(second)]);
    var one := db.(users := db.users[a := NewUser(first)]);
    run := [];
    OneMoreStep(s, run, 0, c);
    run := run + [Step(0, c)];
    assert After(s, run) == State(db, [SyncFindEmail(first), SyncFindIdentity(second)]);
    OneMoreStep(s, run, 0, c);
    run := run + [Step(0, c)];
    assert After(s, run) == State(db, [SyncCreateUser(first), SyncFindIdentity(second)]);
    OneMoreStep(s, run, 1, c);
    run := run + [Step(1, c)];
    assert After(s, run) == State(db, [SyncCreateUser(first), SyncFindEmail(second)]);
    OneMoreStep(s, run, 1, c);
    run := run + [Step(1, c)];
    assert After(s, run) == State(db, [SyncCreateUser(first), SyncCreateUser(second)]);
    OneMoreStep(s, run, 0, a);
    run := run + [Step(0, a)];
    assert After(s, run) == State(one, [SyncCreateIdentity(first, a), SyncCreateUser(second)]);
    StillFree(db, a, NewUser(first), second.email);
    OneMoreStep(s, run, 1, b);
    run := run + [Step(1, b)];
  }

  lemma StillFree(db: Db, a: UserId, user: User, email: string)
    requires a !in db.users && user.email != email && FindByEmail(db, email).None?
    ensures FindByEmail(db.(users := db.users[a := user]), email).None?
  {
    var db' := db.(users := db.users[a := user]);
    assert forall u :: HasEmail(db', u, email) ==> HasEmail(db, u, email);
  }

  /** Even the first two logins there ever are can do it. */
  lemma UserCanBeOrphaned() returns (s: State, run: seq<Step>)
    ensures Init(s) && s.db == EMPTY_DB && Legal(s, run)
    ensures Orphan(After(s, run).db, 2)
  {
    var first := SyncInput("google|9", "GOOGLE", "ann@example.org", "Ann", "");
    var second := first.(email := "bob@example.org");
    assert first.email[0] != second.email[0];
    assert forall u, email :: !HasEmail(EMPTY_DB, u, email);
    s := State(EMPTY_DB, [SyncFindIdentity(first), SyncFindIdentity(second)]);
    run := UserOrphaned(EMPTY_DB, first, second, 1, 2, 3);
  }
}
