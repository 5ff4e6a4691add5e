/** The workspace tables, their constraints, and the repository calls. */
module WorkspaceStore {
  import opened Prelude

  type Id = int

  const NIL_ID: Id := 0

  datatype Role = Admin | Member | Guest

  datatype Workspace = Workspace(name: string, slug: string, owner: Id, createdAt: int)

  datatype Membership = Membership(role: Role, joinedAt: int)

  datatype Invitation = Invitation(
    workspace: Id,
    email: string,
    token: string,
    invitedBy: Id,
    expiresAt: int,
    usedAt: Option<int>)

  datatype User = User(email: string, displayName: string, avatarUrl: string)

  /** Memberships are keyed by (workspace, user), the table's primary key. */
  datatype Db = Db(
    users: map<Id, User>,
    workspaces: map<Id, Workspace>,
    members: map<(Id, Id), Membership>,
    invitations: map<Id, Invitation>)

  predicate IsMember(db: Db, w: Id, u: Id) {
    (w, u) in db.members
  }

  ghost predicate SlugTaken(db: Db, slug: string) {
    exists w :: w in db.workspaces && db.workspaces[w].slug == slug
  }

  /** Insert; refused when the slug is taken or the owner does not exist. */
  ghost function CreateWorkspace(db: Db, w: Id, row: Workspace): Option<Db> {
    if SlugTaken(db, row.slug) || row.owner !in db.users then None
    else Some(db.(workspaces := db.workspaces[w := row]))
  }

  /** Insert; refused when the user is a member already, or the workspace or the user is gone. */
  function AddMember(db: Db, w: Id, u: Id, role: Role, now: int): Option<Db> {
    if (w, u) in db.members || w !in db.workspaces || u !in db.users then None
    else Some(db.(members := db.members[(w, u) := Membership(role, now)]))
  }

  /** Refused when no row has the id. It does not ask whether the row is used already. */
  function MarkUsed(db: Db, i: Id, now: int): Option<Db> {
    if i !in db.invitations then None
    else Some(db.(invitations := db.invitations[i := db.invitations[i].(usedAt := Some(now))]))
  }

  ghost predicate HasToken(db: Db, i: Id, token: string) {
    i in db.invitations && db.invitations[i].token == token
  }

  /** The unique index on invitation tokens, for a row that is new or is `self`. */
  ghost predicate TokenTaken(db: Db, token: string, self: Option<Id>) {
    exists i :: HasToken(db, i, token) && Some(i) != self
  }

  /** The unique index on invitation tokens. */
  ghost predicate UniqueTokens(db: Db) {
    forall i, j :: i in db.invitations && j in db.invitations && db.invitations[i].token == db.invitations[j].token
          ==> i == j
  }

  /** Deleting a workspace cascades to its memberships and invitations. */
  function DeleteWorkspace(db: Db, w: Id): Db {
    db.(workspaces := db.workspaces - {w},
        members := map k | k in db.members && k.0 != w :: db.members[k],
        invitations := map i | i in db.invitations && db.invitations[i].workspace != w :: db.invitations[i])
  }

  /**
   * `i` is an invitation the query may answer with; None when there is none. Which one it is, is up to the database.
   */
  ghost predicate FindsInvitation(db: Db, w: Id, email: string, i: Option<Id>) {
    match i
    case Some(id) => id in db.invitations && db.invitations[id].workspace == w && db.invitations[id].email == email
    case None =>
      forall id :: id in db.invitations ==>
        !(db.invitations[id].workspace == w && db.invitations[id].email == email)
  }
}
