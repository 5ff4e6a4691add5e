/** What each workspace and invitation operation does to the tables and answers, as functions. */
module WorkspaceSpec {
  import opened Prelude
  import opened WorkspaceStore
  import Slug
  import opened Int64
  import opened TaskPaging

  const INVITATION_EXPIRY := 48 * 60 * 60 * 1_000_000_000

  /** Library functions; `order` is the database's choice of an order for the rows a query selects. */
  datatype Env = Env(
    trim: string -> string,
    lower: string -> string,
    lowerOther: char -> char,
    orderMembers: set<MemberInfo> -> seq<MemberInfo>,
    orderWorkspaces: set<(Id, Workspace)> -> seq<(Id, Workspace)>)

  /** The orders are orders of the rows the query selects, by joined_at ascending and by created_at descending. */
  ghost predicate DatabaseOrders(env: Env) {
    Orders(env.orderMembers, JoinedNoLater) && Orders(env.orderWorkspaces, CreatedNoEarlier)
  }

  /** There are such orders. */
  lemma DatabaseOrdersExist(env: Env)
    ensures exists members, workspaces :: DatabaseOrders(env.(orderMembers := members, orderWorkspaces := workspaces))
  {
    var members := (rows: set<MemberInfo>) => Sorted(rows, (m: MemberInfo) => m.joinedAt);
    var workspaces := (rows: set<(Id, Workspace)>) => Sorted(rows, (w: (Id, Workspace)) => -w.1.createdAt);
    forall rows ensures Enumerates(members(rows), rows) && InOrder(members(rows), JoinedNoLater) {
      assert ByKey(members(rows), (m: MemberInfo) => m.joinedAt);
    }
    forall rows ensures Enumerates(workspaces(rows), rows) && InOrder(workspaces(rows), CreatedNoEarlier) {
      assert ByKey(workspaces(rows), (w: (Id, Workspace)) => -w.1.createdAt);
    }
    assert DatabaseOrders(env.(orderMembers := members, orderWorkspaces := workspaces));
  }

  predicate JoinedNoLater(a: MemberInfo, b: MemberInfo) { a.joinedAt <= b.joinedAt }

  predicate CreatedNoEarlier(a: (Id, Workspace), b: (Id, Workspace)) { a.1.createdAt >= b.1.createdAt }

  datatype MemberInfo = MemberInfo(user: Id, displayName: string, email: string, avatarUrl: string, role: Role,
      joinedAt: int)

  datatype WorkspaceError =
    | BadInput | NotFound | NotOwner | Refused
    | NotAdmin | AlreadyUsed | StillValid | Expired | EmailMismatch | AlreadyMember | EmailNotSent | UserNotFound

  datatype Outcome<T> = Outcome(db: Db, reply: Result<T, WorkspaceError>)

  // ----- workspaces -----

  /** One transaction: the workspace and its owner's ADMIN membership, or neither. */
  ghost function Create(env: Env, db: Db, owner: Id, name: string, w: Id, random: string, now: int): Outcome<Id> {
    var name := env.trim(name);
    if owner == NIL_ID || name == "" || ByteLength(name) > 100 then Outcome(db, Err(BadInput))
    else
      var created := CreateWorkspace(db, w,
          Workspace(name, Slug.GenerateSlug(env.lowerOther, name, random), owner, now));
      if created.None? then Outcome(db, Err(Refused))
      else
        var joined := AddMember(created.value, w, owner, Admin, now);
        if joined.None? then Outcome(db, Err(Refused)) else Outcome(joined.value, Ok(w))
  }

  /** What the actor sees of a workspace: nothing unless it exists and the actor is a member. */
  function Visible(db: Db, actor: Id, w: Id): Result<Workspace, WorkspaceError> {
    if actor == NIL_ID || w == NIL_ID then Err(BadInput)
    else if w !in db.workspaces then Err(NotFound)
    else if !IsMember(db, w, actor) then Err(NotFound)
    else Ok(db.workspaces[w])
  }

  function GetByID(db: Db, actor: Id, w: Id): Result<Workspace, WorkspaceError> {
    Visible(db, actor, w)
  }

  function Update(env: Env, db: Db, actor: Id, w: Id, name: string): Outcome<Workspace> {
    var name := env.trim(name);
    if actor == NIL_ID || w == NIL_ID || name == "" || ByteLength(name) > 100 then Outcome(db, Err(BadInput))
    else
      var seen := Visible(db, actor, w);
      if seen.Err? then Outcome(db, seen)
      else
        var row := seen.value.(name := name);
        Outcome(db.(workspaces := db.workspaces[w := row]), Ok(row))
  }

  function Delete(db: Db, actor: Id, w: Id): Outcome<()> {
    var seen := Visible(db, actor, w);
    if seen.Err? then Outcome(db, Err(seen.error))
    else if seen.value.owner != actor then Outcome(db, Err(NotOwner))
    else Outcome(DeleteWorkspace(db, w), Ok(()))
  }

  function PageSize(pageSize: int, default: int): int {
    if pageSize <= 0 || pageSize > 100 then default else pageSize
  }

  function InfoOf(db: Db, w: Id, u: Id): MemberInfo
    requires (w, u) in db.members && u in db.users
  {
    MemberInfo(u, db.users[u].displayName, db.users[u].email, db.users[u].avatarUrl,
               db.members[(w, u)].role, db.members[(w, u)].joinedAt)
  }

  function MembersWithUsers(db: Db, w: Id): set<MemberInfo> {
    set u | u in db.users && (w, u) in db.members :: InfoOf(db, w, u)
  }

  function ListMembers(env: Env, db: Db, actor: Id, w: Id, page: int, pageSize: int): Result<(seq<MemberInfo>, int),
      WorkspaceError> {
    if actor == NIL_ID || w == NIL_ID then Err(BadInput)
    else if !IsMember(db, w, actor) then Err(NotFound)
    else
      var rows := MembersWithUsers(db, w);
      Ok((Page(env.orderMembers(rows), page, PageSize(pageSize, 50)), |rows|))
  }

  function WorkspacesOf(db: Db, u: Id): set<(Id, Workspace)> {
    set w | w in db.workspaces && (w, u) in db.members :: (w, db.workspaces[w])
  }

  function ListByUser(env: Env, db: Db, u: Id, page: int, pageSize: int): Result<(seq<(Id, Workspace)>, int),
      WorkspaceError> {
    if u == NIL_ID then Err(BadInput)
    else
      var rows := WorkspacesOf(db, u);
      Ok((Page(env.orderWorkspaces(rows), page, PageSize(pageSize, 20)), |rows|))
  }

  /** The workspaces of pages 1 to n, one page after another. */
  function WorkspacePages(env: Env, db: Db, u: Id, n: nat, pageSize: int): seq<(Id, Workspace)>
    requires u != NIL_ID
  {
    if n == 0 then [] else WorkspacePages(env, db, u, n - 1, pageSize) + ListByUser(env, db, u, n, pageSize).value.0
  }

  function MemberPages(env: Env, db: Db, actor: Id, w: Id, n: nat, pageSize: int): seq<MemberInfo>
    requires actor != NIL_ID && w != NIL_ID && IsMember(db, w, actor)
  {
    if n == 0 then []
    else MemberPages(env, db, actor, w, n - 1, pageSize) + ListMembers(env, db, actor, w, n, pageSize).value.0
  }

  lemma {:induction false} WorkspacePagesAreFirstPages(env: Env, db: Db, u: Id, n: nat, pageSize: int)
    requires u != NIL_ID
    ensures WorkspacePages(env, db, u, n, pageSize)
         == FirstPages(env.orderWorkspaces(WorkspacesOf(db, u)), n, PageSize(pageSize, 20))
  {
    if n > 0 {
      WorkspacePagesAreFirstPages(env, db, u, n - 1, pageSize);
    }
  }

  lemma {:induction false} MemberPagesAreFirstPages(env: Env, db: Db, actor: Id, w: Id, n: nat, pageSize: int)
    requires actor != NIL_ID && w != NIL_ID && IsMember(db, w, actor)
    ensures MemberPages(env, db, actor, w, n, pageSize)
         == FirstPages(env.orderMembers(MembersWithUsers(db, w)), n, PageSize(pageSize, 50))
  {
    if n > 0 {
      MemberPagesAreFirstPages(env, db, actor, w, n - 1, pageSize);
    }
  }

  /** Page by page the caller sees every workspace it belongs to, each once, the newest first. */
  lemma WorkspacePagesListAll(env: Env, db: Db, u: Id, pageSize: int)
    requires DatabaseOrders(env) && u != NIL_ID && |WorkspacesOf(db, u)| <= TWO_63 - MAX_PAGE_SIZE
    ensures var shown := WorkspacePages(env, db, u, TotalPages(|WorkspacesOf(db, u)|, PageSize(pageSize, 20)),
        pageSize);
            Enumerates(shown, WorkspacesOf(db, u)) && InOrder(shown, CreatedNoEarlier)
  {
    var rows := WorkspacesOf(db, u);
    var size := PageSize(pageSize, 20);
    EnumeratesLength(env.orderWorkspaces(rows), rows);
    WorkspacePagesAreFirstPages(env, db, u, TotalPages(|rows|, size), pageSize);
    PagesAreTheWholeList(env.orderWorkspaces(rows), size);
  }

  /** Page by page a member sees every member, each once, the longest-standing first. */
  lemma MemberPagesListAll(env: Env, db: Db, actor: Id, w: Id, pageSize: int)
    requires DatabaseOrders(env) && actor != NIL_ID && w != NIL_ID && IsMember(db, w, actor)
    requires |MembersWithUsers(db, w)| <= TWO_63 - MAX_PAGE_SIZE
    ensures var total := |MembersWithUsers(db, w)|;
            var shown := MemberPages(env, db, actor, w, TotalPages(total, PageSize(pageSize, 50)), pageSize);
            Enumerates(shown, MembersWithUsers(db, w)) && InOrder(shown, JoinedNoLater)
  {
    var rows := MembersWithUsers(db, w);
    var size := PageSize(pageSize, 50);
    EnumeratesLength(env.orderMembers(rows), rows);
    MemberPagesAreFirstPages(env, db, actor, w, TotalPages(|rows|, size), pageSize);
    PagesAreTheWholeList(env.orderMembers(rows), size);
  }

  // ----- invitations -----

  function InviteCheck(env: Env, db: Db, w: Id, inviter: Id, email: string, found: Option<Id>,
      now: int): Option<WorkspaceError>
    requires found.Some? ==> found.value in db.invitations
  {
    if w == NIL_ID || inviter == NIL_ID || env.trim(email) == "" then Some(BadInput)
    else if (w, inviter) !in db.members then Some(NotFound)
    else if db.members[(w, inviter)].role != Admin then Some(NotAdmin)
    else if found.Some? && db.invitations[found.value].usedAt.Some? then Some(AlreadyUsed)
    else if found.Some? && db.invitations[found.value].expiresAt > now then Some(StillValid)
    else None
  }

  /** One transaction: the new row and the mail, or nothing. */
  ghost function InsertInvitation(db: Db, i: Id, row: Invitation, sent: bool): Outcome<()> {
    if TokenTaken(db, row.token, None) || row.workspace !in db.workspaces || row.invitedBy !in db.users
        then Outcome(db, Err(Refused))
    else if !sent then Outcome(db, Err(EmailNotSent))
    else Outcome(db.(invitations := db.invitations[i := row]), Ok(()))
  }

  function NewInvitation(env: Env, w: Id, inviter: Id, email: string, token: string, now: int): Invitation {
    Invitation(w, env.lower(env.trim(email)), token, inviter, now + INVITATION_EXPIRY, None)
  }

  ghost function Invite(env: Env, db: Db, w: Id, inviter: Id, email: string, found: Option<Id>,
                        i: Id, token: string, sent: bool, now: int): Outcome<()>
    requires found.Some? ==> found.value in db.invitations
  {
    var refusal := InviteCheck(env, db, w, inviter, email, found, now);
    if refusal.Some? then Outcome(db, Err(refusal.value))
    else InsertInvitation(db, i, NewInvitation(env, w, inviter, email, token, now), sent)
  }

  /** Renews the invitation found, with a new token and expiry; makes a new one when there is none. */
  ghost function ResendInvitation(env: Env, db: Db, w: Id, inviter: Id, email: string, found: Option<Id>,
                                  i: Id, token: string, sent: bool, now: int): Outcome<()>
    requires found.Some? ==> found.value in db.invitations
  {
    var refusal := InviteCheck(env, db, w, inviter, email, found, now);
    if refusal.Some? then Outcome(db, Err(refusal.value))
    else if found.None? then
      InsertInvitation(db, i, NewInvitation(env, w, inviter, email, token, now), sent)
    else if TokenTaken(db, token, found) then Outcome(db, Err(Refused))
    else if !sent then Outcome(db, Err(EmailNotSent))
    else
      var row := db.invitations[found.value].(expiresAt := now + INVITATION_EXPIRY, token := token);
      Outcome(db.(invitations := db.invitations[found.value := row]), Ok(()))
  }

  ghost function FindByToken(db: Db, token: string): (r: Option<Id>)
    ensures r.Some? ==> HasToken(db, r.value, token)
    ensures r.None? ==> forall i :: !HasToken(db, i, token)
  {
    if exists i :: HasToken(db, i, token) then
      var i :| HasToken(db, i, token);
      Some(i)
    else None
  }

  /** The reads of AcceptInvitation, before its transaction: the invitation to accept, or why not. */
  ghost function AcceptCheck(db: Db, actor: Id, token: string, now: int): Result<Id, WorkspaceError> {
    var found := FindByToken(db, token);
    if actor == NIL_ID || token == "" then Err(BadInput)
    else if found.None? then Err(NotFound)
    else
      var row := db.invitations[found.value];
      if row.usedAt.Some? then Err(AlreadyUsed)
      else if row.expiresAt < now then Err(Expired)
      else if actor !in db.users then Err(UserNotFound)
      else if db.users[actor].email != row.email then Err(EmailMismatch)
      else if IsMember(db, row.workspace, actor) then Err(AlreadyMember)
      else Ok(found.value)
  }

  /** The transaction: the membership and the used mark, or neither. */
  function AcceptCommit(db: Db, actor: Id, i: Id, w: Id, now: int): Outcome<Id> {
    var joined := AddMember(db, w, actor, Member, now);
    if joined.None? then Outcome(db, Err(Refused))
    else
      var marked := MarkUsed(joined.value, i, now);
      if marked.None? then Outcome(db, Err(Refused)) else Outcome(marked.value, Ok(w))
  }

  ghost function AcceptInvitation(db: Db, actor: Id, token: string, now: int): Outcome<Id> {
    var checked := AcceptCheck(db, actor, token, now);
    if checked.Err? then Outcome(db, Err(checked.error))
    else
      AcceptCheckNames(db, actor, token, now);
      AcceptCommit(db, actor, checked.value, db.invitations[checked.value].workspace, now)
  }

  lemma AcceptCheckNames(db: Db, actor: Id, token: string, now: int)
    ensures AcceptCheck(db, actor, token, now).Ok? ==> AcceptCheck(db, actor, token, now).value in db.invitations
  {
  }
}
