/** The account tables and their rows, the constraints the schema puts on them, and the repository calls. */
module AuthStore {
  import opened Prelude

  type UserId = int

  const NIL_USER: UserId := 0

  datatype User = User(
    email: string,
    displayName: string,
    avatarUrl: string,
    statusText: string,
    passwordHash: Option<string>,
    emailVerified: bool)

  datatype Identity = Identity(userId: UserId, provider: string, emailAtLinkTime: string, isPrimary: bool)

  datatype RefreshToken = RefreshToken(userId: UserId, expiresAt: int)

  datatype VerificationToken = VerificationToken(userId: UserId, expiresAt: int, createdAt: int)

  /** Users by id; the other tables by their unique column: provider subject and token hash. */
  datatype Db = Db(
    users: map<UserId, User>,
    identities: map<string, Identity>,
    refresh: map<string, RefreshToken>,
    verification: map<string, VerificationToken>)

  const EMPTY_DB := Db(map[], map[], map[], map[])

  // ----- users -----

  ghost predicate HasEmail(db: Db, u: UserId, email: string) {
    u in db.users && db.users[u].email == email
  }

  /** The unique index on users.email. */
  ghost predicate UniqueEmails(db: Db) {
    forall u, v :: u in db.users && v in db.users && db.users[u].email == db.users[v].email ==> u == v
  }

  ghost function FindByEmail(db: Db, email: string): (r: Option<UserId>)
    ensures r.Some? ==> HasEmail(db, r.value, email)
    ensures r.None? ==> forall u :: !HasEmail(db, u, email)
  {
    if exists u :: HasEmail(db, u, email) then
      var u :| HasEmail(db, u, email);
      Some(u)
    else None
  }

  lemma OwnerOfEmail(db: Db, u: UserId)
    requires UniqueEmails(db) && u in db.users
    ensures FindByEmail(db, db.users[u].email) == Some(u)
  {
    assert HasEmail(db, u, db.users[u].email);
  }

  /** Insert; refused when the email is taken. `id` is the fresh key the database assigns. */
  ghost function CreateUser(db: Db, id: UserId, user: User): Option<Db> {
    if FindByEmail(db, user.email).Some? then None else Some(db.(users := db.users[id := user]))
  }

  /** Save of a whole row; refused when another row has the email. */
  ghost function SaveUser(db: Db, id: UserId, user: User): Option<Db> {
    if exists u :: u != id && HasEmail(db, u, user.email) then None else Some(db.(users := db.users[id := user]))
  }

  /** Deleting a user cascades to everything that references it. */
  function DeleteUser(db: Db, id: UserId): Db {
    Db(db.users - {id},
       map s | s in db.identities && db.identities[s].userId != id :: db.identities[s],
       map h | h in db.refresh && db.refresh[h].userId != id :: db.refresh[h],
       map h | h in db.verification && db.verification[h].userId != id :: db.verification[h])
  }

  // ----- identities -----

  /** The other two unique indexes: one identity per user and provider, one primary per user. */
  predicate Clash(a: Identity, b: Identity) {
    a.userId == b.userId && (a.provider == b.provider || (a.isPrimary && b.isPrimary))
  }

  /** Insert; refused when the subject is known, the user is not, or another identity clashes. */
  ghost predicate IdentityConflicts(db: Db, subject: string, row: Identity) {
    || subject in db.identities
    || row.userId !in db.users
    || exists s :: s in db.identities && Clash(db.identities[s], row)
  }

  ghost function CreateIdentity(db: Db, subject: string, row: Identity): Option<Db> {
    if IdentityConflicts(db, subject, row) then None else Some(db.(identities := db.identities[subject := row]))
  }

  ghost predicate Names(db: Db, subject: string, u: UserId) {
    subject in db.identities && db.identities[subject].userId == u
  }

  ghost predicate HasIdentity(db: Db, u: UserId) {
    exists s :: Names(db, s, u)
  }

  // ----- tokens -----

  function DropVerification(db: Db, u: UserId): Db {
    db.(verification := map h | h in db.verification && db.verification[h].userId != u :: db.verification[h])
  }

  ghost function RefreshTokensOf(db: Db, u: UserId): set<string> {
    set h | h in db.refresh && db.refresh[h].userId == u
  }

  ghost function VerificationTokensOf(db: Db, u: UserId): set<string> {
    set h | h in db.verification && db.verification[h].userId == u
  }

  /**
   * A user nobody can log in as: verified, but with no password, no identity, no session and no verification token.
   */
  ghost predicate Orphan(db: Db, u: UserId) {
    && u in db.users && db.users[u].emailVerified && db.users[u].passwordHash.None?
    && !HasIdentity(db, u)
    && (forall h :: h in db.refresh ==> db.refresh[h].userId != u)
    && (forall h :: h in db.verification ==> db.verification[h].userId != u)
  }

  // ----- profiles -----

  /** Fields the provider left empty keep their value. */
  function WithProfile(user: User, email: string, displayName: string, avatarUrl: string): User {
    user.(email := if email != "" then email else user.email,
          displayName := if displayName != "" then displayName else user.displayName,
          avatarUrl := if avatarUrl != "" then avatarUrl else user.avatarUrl)
  }

  /** What a user asks to change. An empty name, or no value, leaves the field as it is. */
  datatype ProfileEdit = ProfileEdit(displayName: string, avatarUrl: Option<string>, statusText: Option<string>)

  function WithEdit(user: User, edit: ProfileEdit): User {
    user.(displayName := if edit.displayName != "" then edit.displayName else user.displayName,
          avatarUrl := if edit.avatarUrl.Some? then edit.avatarUrl.value else user.avatarUrl,
          statusText := if edit.statusText.Some? then edit.statusText.value else user.statusText)
  }

  function IndexOfBar(s: string): (i: nat)
    ensures i <= |s|
    ensures forall j :: 0 <= j < i ==> s[j] != '|'
    ensures i < |s| ==> s[i] == '|'
  {
    if s == [] || s[0] == '|' then 0 else 1 + IndexOfBar(s[1..])
  }

  /** The part before the first bar, upper-cased; there must be a bar and something before it. */
  function ProviderOf(upper: string -> string, subject: string): Option<string> {
    var i := IndexOfBar(subject);
    if 0 < i < |subject| then Some(upper(subject[..i])) else None
  }
}
