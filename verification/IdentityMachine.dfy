/**
 * Identity linking under concurrency: any number of SyncAuth0User and ConfirmAccountLink calls, and of the calls
 * that read a user's row and save all of it, UpdateProfile, SetPassword and VerifyEmail, interleaved between
 * repository calls. Each repository call is one step; what a goroutine remembers is in its program counter.
 */
module IdentityMachine {
  import opened Prelude
  import opened AuthStore
  import opened AuthSpec

  /** The trimmed and normalised inputs that reach the repositories. */
  datatype SyncInput = SyncInput(subject: string, provider: string, email: string, displayName: string,
      avatarUrl: string)

  /** The claims of a valid pending token, and whether the given password matches a stored hash. */
  datatype LinkInput = LinkInput(subject: string, provider: string, email: string, matches: string -> bool)

  /** What UpdateProfile, SetPassword and VerifyEmail do to the row they have read. */
  datatype Change = Profile(edit: ProfileEdit) | Password(hash: string) | Verify

  function Changed(change: Change, row: User): Result<User, AuthError> {
    match change
    case Profile(edit) => Ok(WithEdit(row, edit))
    case Password(hash) =>
      if row.passwordHash.Some? then Err(PasswordAlreadySet) else Ok(row.(passwordHash := Some(hash)))
    case Verify => Ok(row.(emailVerified := true))
  }

  datatype Pc =
    // SyncAuth0User
    | SyncFindIdentity(sync: SyncInput)
    | SyncLoadUser(sync: SyncInput, user: UserId)
    | SyncSaveProfile(sync: SyncInput, user: UserId, row: User)
    | SyncFindEmail(sync: SyncInput)
    | SyncCreateUser(sync: SyncInput)
    | SyncRecoverUser(sync: SyncInput)
    | SyncCreateIdentity(sync: SyncInput, user: UserId)
    | SyncRecoverIdentity(sync: SyncInput)
    | SyncReloadUser(sync: SyncInput, user: UserId)
    // ConfirmAccountLink
    | LinkFindEmail(link: LinkInput)
    | LinkCreateIdentity(link: LinkInput, user: UserId, row: User)
    | LinkRecoverIdentity(link: LinkInput, user: UserId, row: User)
    | LinkMarkVerified(link: LinkInput, user: UserId, row: User)
    | Finished(subject: string, reply: Result<UserId, AuthError>)
    // UpdateProfile and SetPassword, and VerifyEmail up to the token pair it issues
    | ConsumeToken(hash: string, now: int)
    | EditLoad(user: UserId, change: Change)
    | EditSave(user: UserId, row: User)
    | Saved(result: Result<User, AuthError>)

  predicate Over(pc: Pc) {
    pc.Finished? || pc.Saved?
  }

  function SubjectOf(pc: Pc): string {
    match pc
    case Finished(subject, _) => subject
    case LinkFindEmail(link) => link.subject
    case LinkCreateIdentity(link, _, _) => link.subject
    case LinkRecoverIdentity(link, _, _) => link.subject
    case LinkMarkVerified(link, _, _) => link.subject
    case ConsumeToken(_, _) => ""
    case EditLoad(_, _) => ""
    case EditSave(_, _) => ""
    case Saved(_) => ""
    case _ => pc.sync.subject
  }

  function Fail(pc: Pc, error: AuthError): Pc {
    Finished(SubjectOf(pc), Err(error))
  }

  function Succeed(pc: Pc, u: UserId): Pc {
    Finished(SubjectOf(pc), Ok(u))
  }

  function NewUser(sync: SyncInput): User {
    User(sync.email, if sync.displayName == "" then sync.email else sync.displayName, sync.avatarUrl, "", None, true)
  }

  /** One repository call and the code up to the next one. `id` is the key the database would assign to a new user. */
  ghost function Next(db: Db, pc: Pc, id: UserId): (Db, Pc) {
    match pc
    case SyncFindIdentity(sync) =>
      if sync.subject in db.identities then (db, SyncLoadUser(sync, db.identities[sync.subject].userId))
      else if sync.email == "" then (db, Fail(pc, EmailRequired))
      else (db, SyncFindEmail(sync))
    case SyncLoadUser(sync, u) =>
      if u !in db.users then (db, Fail(pc, UserNotFound))
      else
        var row := WithProfile(db.users[u], sync.email, sync.displayName, sync.avatarUrl);
        if row == db.users[u] then (db, Succeed(pc, u)) else (db, SyncSaveProfile(sync, u, row))
    case SyncSaveProfile(sync, u, row) =>
      var saved := SaveUser(db, u, row);
      if saved.None? then (db, Fail(pc, Refused)) else (saved.value, Succeed(pc, u))
    case SyncFindEmail(sync) =>
      if FindByEmail(db, sync.email).Some? then (db, Fail(pc, LinkRequired)) else (db, SyncCreateUser(sync))
    case SyncCreateUser(sync) =>
      var created := CreateUser(db, id, NewUser(sync));
      if created.Some? then (created.value, SyncCreateIdentity(sync, id)) else (db, SyncRecoverUser(sync))
    case SyncRecoverUser(sync) =>
      var owner := FindByEmail(db, sync.email);
      if owner.None? then (db, Fail(pc, Refused)) else (db, SyncCreateIdentity(sync, owner.value))
    case SyncCreateIdentity(sync, u) =>
      var created := CreateIdentity(db, sync.subject, Identity(u, sync.provider, sync.email, true));
      if created.Some? then (created.value, Succeed(pc, u)) else (db, SyncRecoverIdentity(sync))
    case SyncRecoverIdentity(sync) =>
      if sync.subject in db.identities then (db, SyncReloadUser(sync, db.identities[sync.subject].userId))
      else (db, Fail(pc, IdentityRefused))
    case SyncReloadUser(sync, u) =>
      if u in db.users then (db, Succeed(pc, u)) else (db, Fail(pc, UserNotFound))
    case LinkFindEmail(link) =>
      var owner := FindByEmail(db, link.email);
      if owner.None? then (db, Fail(pc, InvalidPendingToken))
      else
        var row := db.users[owner.value];
        if row.passwordHash.None? then (db, Fail(pc, NoPasswordSet))
        else if !link.matches(row.passwordHash.value) then (db, Fail(pc, InvalidCredentials))
        else (db, LinkCreateIdentity(link, owner.value, row))
    case LinkCreateIdentity(link, u, row) =>
      var created := CreateIdentity(db, link.subject, Identity(u, link.provider, link.email, false));
      if created.None? then (db, LinkRecoverIdentity(link, u, row))
      else (created.value, AfterLink(pc, u, row))
    case LinkRecoverIdentity(link, u, row) =>
      if link.subject !in db.identities then (db, Fail(pc, IdentityRefused))
      else if db.identities[link.subject].userId != u then (db, Fail(pc, LinkConflict))
      else (db, AfterLink(pc, u, row))
    case LinkMarkVerified(link, u, row) =>
      // The whole row is saved as it was read, email included.
      var saved := SaveUser(db, u, row.(emailVerified := true));
      if saved.None? then (db, Fail(pc, Refused)) else (saved.value, Succeed(pc, u))
    case ConsumeToken(hash, now) =>
      if hash in db.verification && db.verification[hash].expiresAt > now then
        (db.(verification := db.verification - {hash}), EditLoad(db.verification[hash].userId, Verify))
      else (db, Saved(Err(InvalidVerificationToken)))
    case EditLoad(u, change) =>
      if u !in db.users then (db, Saved(Err(UserNotFound)))
      else
        var changed := Changed(change, db.users[u]);
        if changed.Err? || (change.Profile? && changed.value == db.users[u]) then (db, Saved(changed))
        else (db, EditSave(u, changed.value))
    case EditSave(u, row) =>
      var saved := SaveUser(db, u, row);
      if saved.None? then (db, Saved(Err(Refused))) else (saved.value, Saved(Ok(row)))
    case Finished(_, _) => (db, pc)
    case Saved(_) => (db, pc)
  }

  function AfterLink(pc: Pc, u: UserId, row: User): Pc
    requires pc.LinkCreateIdentity? || pc.LinkRecoverIdentity?
  {
    if row.emailVerified then Succeed(pc, u) else LinkMarkVerified(pc.link, u, row)
  }

  datatype State = State(db: Db, pc: seq<Pc>)

  ghost predicate Enabled(s: State, t: nat, id: UserId) {
    t < |s.pc| && !Over(s.pc[t]) && id !in s.db.users
  }

  ghost function Apply(s: State, t: nat, id: UserId): State
    requires Enabled(s, t, id)
  {
    var (db', pc') := Next(s.db, s.pc[t], id);
    State(db', s.pc[t := pc'])
  }

  // ----- the invariant -----

  /** The schema's unique indexes and foreign keys. */
  ghost predicate Constraints(db: Db) {
    && UniqueEmails(db)
    && (forall s :: s in db.identities ==> db.identities[s].userId in db.users)
    && (forall s, r :: s in db.identities && r in db.identities && s != r
          ==> !Clash(db.identities[s], db.identities[r]))
  }

  /** What a goroutine has established about the tables by where it is. */
  ghost predicate Knows(db: Db, pc: Pc) {
    match pc
    case SyncLoadUser(sync, u) => Names(db, sync.subject, u)
    case SyncSaveProfile(sync, u, row) => Names(db, sync.subject, u)
    case SyncCreateIdentity(sync, u) => u in db.users
    case SyncReloadUser(sync, u) => Names(db, sync.subject, u)
    case LinkCreateIdentity(link, u, row) => u in db.users
    case LinkRecoverIdentity(link, u, row) => u in db.users
    case LinkMarkVerified(link, u, row) => u in db.users && Names(db, link.subject, u)
    case EditSave(u, row) => u in db.users
    case Finished(subject, reply) => reply.Ok? ==> Names(db, subject, reply.value)
    case _ => true
  }

  ghost predicate Inv(s: State) {
    Constraints(s.db) && forall t :: 0 <= t < |s.pc| ==> Knows(s.db, s.pc[t])
  }

  ghost predicate Starts(pc: Pc) {
    pc.SyncFindIdentity? || pc.LinkFindEmail? || pc.EditLoad? || pc.ConsumeToken?
  }

  /** Any tables the constraints allow, any calls about to begin. */
  ghost predicate Init(s: State) {
    Constraints(s.db) && forall t :: 0 <= t < |s.pc| ==> Starts(s.pc[t])
  }

  /** Users stay and identity rows stay as they are: no step deletes or re-points one. */
  ghost predicate Grows(db: Db, db': Db) {
    && (forall u :: u in db.users ==> u in db'.users)
    && (forall s :: s in db.identities ==> s in db'.identities && db'.identities[s] == db.identities[s])
  }

  lemma StepGrows(db: Db, pc: Pc, id: UserId)
    requires id !in db.users
    ensures Grows(db, Next(db, pc, id).0)
  {
  }

  lemma SavedRowKeepsConstraints(db: Db, u: UserId, row: User)
    requires Constraints(db) && SaveUser(db, u, row).Some?
    ensures Constraints(SaveUser(db, u, row).value)
  {
    var db' := SaveUser(db, u, row).value;
    forall v, x | v in db'.users && x in db'.users && db'.users[v].email == db'.users[x].email ensures v == x {
      assert v != u ==> HasEmail(db, v, db.users[v].email);
      assert x != u ==> HasEmail(db, x, db.users[x].email);
    }
  }

  lemma NewRowKeepsConstraints(db: Db, id: UserId, row: User)
    requires Constraints(db) && id !in db.users && CreateUser(db, id, row).Some?
    ensures Constraints(CreateUser(db, id, row).value)
  {
    var db' := CreateUser(db, id, row).value;
    forall v, x | v in db'.users && x in db'.users && db'.users[v].email == db'.users[x].email ensures v == x {
      assert v != id ==> !HasEmail(db, v, row.email);
      assert x != id ==> !HasEmail(db, x, row.email);
    }
  }

  lemma NewIdentityKeepsConstraints(db: Db, subject: string, row: Identity)
    requires Constraints(db) && CreateIdentity(db, subject, row).Some?
    ensures Constraints(CreateIdentity(db, subject, row).value)
  {
    assert forall s :: s in db.identities ==> !Clash(db.identities[s], row) && !Clash(row, db.identities[s]);
  }

  lemma StepConstraints(db: Db, pc: Pc, id: UserId)
    requires Constraints(db) && id !in db.users
    ensures Constraints(Next(db, pc, id).0)
  {
    match pc {
      case SyncSaveProfile(sync, u, row) =>
        if SaveUser(db, u, row).Some? { SavedRowKeepsConstraints(db, u, row); }
      case EditSave(u, row) =>
        if SaveUser(db, u, row).Some? { SavedRowKeepsConstraints(db, u, row); }
      case LinkMarkVerified(link, u, row) =>
        if SaveUser(db, u, row.(emailVerified := true)).Some? {
          SavedRowKeepsConstraints(db, u, row.(emailVerified := true));
        }
      case SyncCreateUser(sync) =>
        if CreateUser(db, id, NewUser(sync)).Some? { NewRowKeepsConstraints(db, id, NewUser(sync)); }
      case SyncCreateIdentity(sync, u) =>
        var row := Identity(u, sync.provider, sync.email, true);
        if CreateIdentity(db, sync.subject, row).Some? { NewIdentityKeepsConstraints(db, sync.subject, row); }
      case LinkCreateIdentity(link, u, row) =>
        var identity := Identity(u, link.provider, link.email, false);
        if CreateIdentity(db, link.subject, identity).Some? { NewIdentityKeepsConstraints(db, link.subject, identity); }
      case _ =>
    }
  }

  lemma GrowthKeepsKnowledge(db: Db, db': Db, pc: Pc)
    requires Knows(db, pc) && Grows(db, db')
    ensures Knows(db', pc)
  {
  }

  lemma StepKnows(db: Db, pc: Pc, id: UserId)
    requires Constraints(db) && id !in db.users && Knows(db, pc)
    ensures Knows(Next(db, pc, id).0, Next(db, pc, id).1)
  {
    match pc {
      case SyncFindIdentity(_) => SyncKnows(db, pc, id);
      case SyncLoadUser(_, _) => SyncKnows(db, pc, id);
      case SyncSaveProfile(_, _, _) => SyncKnows(db, pc, id);
      case SyncFindEmail(_) => SyncKnows(db, pc, id);
      case SyncCreateUser(_) => SyncKnows(db, pc, id);
      case SyncRecoverUser(_) => SyncKnows(db, pc, id);
      case SyncCreateIdentity(_, _) => SyncInsertKnows(db, pc, id);
      case SyncRecoverIdentity(_) => SyncInsertKnows(db, pc, id);
      case SyncReloadUser(_, _) => SyncInsertKnows(db, pc, id);
      case LinkFindEmail(_) => LinkKnows(db, pc, id);
      case LinkCreateIdentity(_, _, _) => LinkKnows(db, pc, id);
      case LinkRecoverIdentity(_, _, _) => LinkKnows(db, pc, id);
      case LinkMarkVerified(_, _, _) => LinkKnows(db, pc, id);
      case _ =>
    }
  }

  lemma SyncKnows(db: Db, pc: Pc, id: UserId)
    requires Constraints(db) && Knows(db, pc)
    requires || pc.SyncFindIdentity? || pc.SyncLoadUser? || pc.SyncSaveProfile?
             || pc.SyncFindEmail? || pc.SyncCreateUser? || pc.SyncRecoverUser?
    ensures Knows(Next(db, pc, id).0, Next(db, pc, id).1)
  {
  }

  lemma SyncInsertKnows(db: Db, pc: Pc, id: UserId)
    requires Constraints(db) && Knows(db, pc)
    requires pc.SyncCreateIdentity? || pc.SyncRecoverIdentity? || pc.SyncReloadUser?
    ensures Knows(Next(db, pc, id).0, Next(db, pc, id).1)
  {
  }

  lemma LinkKnows(db: Db, pc: Pc, id: UserId)
    requires Constraints(db) && Knows(db, pc)
    requires pc.LinkFindEmail? || pc.LinkCreateIdentity? || pc.LinkRecoverIdentity? || pc.LinkMarkVerified?
    ensures Knows(Next(db, pc, id).0, Next(db, pc, id).1)
  {
  }

  lemma StepInv(s: State, t: nat, id: UserId)
    requires Inv(s) && Enabled(s, t, id)
    ensures Inv(Apply(s, t, id))
  {
    var s' := Apply(s, t, id);
    StepConstraints(s.db, s.pc[t], id);
    StepGrows(s.db, s.pc[t], id);
    StepKnows(s.db, s.pc[t], id);
    forall u | 0 <= u < |s'.pc| ensures Knows(s'.db, s'.pc[u]) {
      if u != t {
        GrowthKeepsKnowledge(s.db, s'.db, s.pc[u]);
      }
    }
  }

  // ----- runs -----

  datatype Step = Step(thread: nat, id: UserId)

  ghost predicate Legal(s: State, run: seq<Step>)
    decreases |run|
  {
    run == [] || (Enabled(s, run[0].thread, run[0].id) && Legal(Apply(s, run[0].thread, run[0].id), run[1..]))
  }

  ghost function After(s: State, run: seq<Step>): State
    requires Legal(s, run)
    decreases |run|
  {
    if run == [] then s else After(Apply(s, run[0].thread, run[0].id), run[1..])
  }

  lemma {:induction false} RunInv(s: State, run: seq<Step>)
    requires Inv(s) && Legal(s, run)
    ensures Inv(After(s, run)) && Grows(s.db, After(s, run).db) && |After(s, run).pc| == |s.pc|
    ensures forall t :: 0 <= t < |s.pc| && Over(s.pc[t]) ==> After(s, run).pc[t] == s.pc[t]
    decreases |run|
  {
    if run != [] {
      var s' := Apply(s, run[0].thread, run[0].id);
      StepInv(s, run[0].thread, run[0].id);
      StepGrows(s.db, s.pc[run[0].thread], run[0].id);
      RunInv(s', run[1..]);
    }
  }
}
