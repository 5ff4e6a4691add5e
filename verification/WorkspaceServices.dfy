/** The workspace tables as a mutable store, and the services that read and write them. */
module WorkspaceServices {
  import opened Prelude
  import opened WorkspaceStore
  import opened WorkspaceSpec
  import opened WorkspaceContracts
  import opened Int64
  import opened TaskPaging
  import Slug

  class Database {
    var users: map<Id, User>
    var workspaces: map<Id, Workspace>
    var members: map<(Id, Id), Membership>
    var invitations: map<Id, Invitation>

    constructor (users: map<Id, User>)
      ensures Contents() == Db(users, map[], map[], map[])
    {
      this.users := users;
      workspaces, members, invitations := map[], map[], map[];
    }

    function Contents(): Db
      reads this
    {
      Db(users, workspaces, members, invitations)
    }

    method InsertWorkspace(w: Id, row: Workspace) returns (ok: bool)
      modifies this`workspaces
      ensures ok <==> CreateWorkspace(old(Contents()), w, row).Some?
      ensures Contents() == if ok then CreateWorkspace(old(Contents()), w, row).value else old(Contents())
    {
      var todo := workspaces.Keys;
      while todo != {}
        invariant Contents() == old(Contents()) && todo <= workspaces.Keys
        invariant forall v :: v in workspaces && v !in todo ==> workspaces[v].slug != row.slug
        decreases |todo|
      {
        var v := NextKey(todo);
        if workspaces[v].slug == row.slug {
          assert SlugTaken(Contents(), row.slug);
          return false;
        }
        todo := todo - {v};
      }
      assert !SlugTaken(Contents(), row.slug);
      if row.owner !in users {
        return false;
      }
      workspaces := workspaces[w := row];
      return true;
    }

    method AddMemberRow(w: Id, u: Id, role: Role, now: int) returns (ok: bool)
      modifies this`members
      ensures ok <==> AddMember(old(Contents()), w, u, role, now).Some?
      ensures Contents() == if ok then AddMember(old(Contents()), w, u, role, now).value else old(Contents())
    {
      if (w, u) in members || w !in workspaces || u !in users {
        return false;
      }
      members := members[(w, u) := Membership(role, now)];
      return true;
    }

    method RowWithToken(token: string, self: Option<Id>) returns (r: Option<Id>)
      ensures r.Some? ==> HasToken(Contents(), r.value, token) && r != self
      ensures r.None? ==> forall i :: HasToken(Contents(), i, token) ==> Some(i) == self
    {
      var todo := invitations.Keys;
      while todo != {}
        invariant todo <= invitations.Keys
        invariant forall i :: HasToken(Contents(), i, token) && i !in todo ==> Some(i) == self
        decreases |todo|
      {
        var i := NextKey(todo);
        if invitations[i].token == token && Some(i) != self {
          return Some(i);
        }
        todo := todo - {i};
      }
      return None;
    }

    method MarkInvitationUsed(i: Id, now: int) returns (ok: bool)
      modifies this`invitations
      ensures ok <==> MarkUsed(old(Contents()), i, now).Some?
      ensures Contents() == if ok then MarkUsed(old(Contents()), i, now).value else old(Contents())
    {
      if i !in invitations {
        return false;
      }
      invitations := invitations[i := invitations[i].(usedAt := Some(now))];
      return true;
    }

    method DeleteRow(w: Id)
      modifies this
      ensures Contents() == DeleteWorkspace(old(Contents()), w)
    {
      workspaces := workspaces - {w};
      members := map k | k in members && k.0 != w :: members[k];
      invitations := map i | i in invitations && invitations[i].workspace != w :: invitations[i];
    }

    /** Undoes a transaction. */
    method Rollback(workspaces: map<Id, Workspace>, members: map<(Id, Id), Membership>, invitations: map<Id,
        Invitation>)
      modifies this
      ensures Contents() == Db(old(users), workspaces, members, invitations)
    {
      this.workspaces, this.members, this.invitations := workspaces, members, invitations;
    }
  }

  class WorkspaceService {
    const db: Database
    const env: Env

    constructor (db: Database, env: Env)
      ensures this.db == db && this.env == env
    {
      this.db, this.env := db, env;
    }

    method Create(owner: Id, name: string, w: Id, random: string, now: int) returns (r: Result<Id, WorkspaceError>)
      modifies db
      ensures Outcome(db.Contents(), r) == WorkspaceSpec.Create(env, old(db.Contents()), owner, name, w, random, now)
      ensures CreateAnswers(env, old(db.Contents()), owner, name, w, random, now, db.Contents(), r)
    {
      CreateExactly(env, db.Contents(), owner, name, w, random, now);
      var name' := env.trim(name);
      if owner == NIL_ID || name' == "" {
        return Err(BadInput);
      }
      if ByteLength(name') > 100 {
        return Err(BadInput);
      }
      var workspaces, members, invitations := db.workspaces, db.members, db.invitations;
      var created := db.InsertWorkspace(w,
          Workspace(name', Slug.GenerateSlug(env.lowerOther, name', random), owner, now));
      if !created {
        return Err(Refused);
      }
      var joined := db.AddMemberRow(w, owner, Admin, now);
      if !joined {
        db.Rollback(workspaces, members, invitations);
        return Err(Refused);
      }
      return Ok(w);
    }

    method GetByID(actor: Id, w: Id) returns (r: Result<Workspace, WorkspaceError>)
      ensures r == WorkspaceSpec.GetByID(db.Contents(), actor, w)
      ensures GetAnswers(db.Contents(), actor, w, r)
    {
      GetExactly(db.Contents(), actor, w);
      if actor == NIL_ID || w == NIL_ID {
        return Err(BadInput);
      }
      if w !in db.workspaces {
        return Err(NotFound);
      }
      if (w, actor) !in db.members {
        return Err(NotFound);
      }
      return Ok(db.workspaces[w]);
    }

    method ListByUser(u: Id, page: int, pageSize: int) returns (r: Result<(seq<(Id, Workspace)>, int), WorkspaceError>)
      requires DatabaseOrders(env)
      ensures r == WorkspaceSpec.ListByUser(env, db.Contents(), u, page, pageSize)
      ensures u != NIL_ID ==>
                && r.Ok? && r.value.1 == |WorkspacesOf(db.Contents(), u)|
                && Elements(r.value.0) <= WorkspacesOf(db.Contents(), u)
                && Distinct(r.value.0) && InOrder(r.value.0, CreatedNoEarlier)
                && |r.value.0| == PageLength(r.value.1, page, if 1 <= pageSize <= 100 then pageSize else 20)
    {
      if u == NIL_ID {
        return Err(BadInput);
      }
      var p, size := page, pageSize;
      if p <= 0 {
        p := 1;
      }
      if size <= 0 || size > 100 {
        size := 20;
      }
      var rows := WorkspacesOf(db.Contents(), u);
      PageIsSlice(env.orderWorkspaces(rows), rows, CreatedNoEarlier, page, PageSize(pageSize, 20));
      return Ok((Fetch(env.orderWorkspaces(rows), Wrap((p - 1) * size), size), |rows|));
    }

    method ListMembers(actor: Id, w: Id, page: int, pageSize: int)
        returns (r: Result<(seq<MemberInfo>, int), WorkspaceError>)
      requires DatabaseOrders(env)
      ensures r == WorkspaceSpec.ListMembers(env, db.Contents(), actor, w, page, pageSize)
      ensures r.Ok? <==> actor != NIL_ID && w != NIL_ID && IsMember(db.Contents(), w, actor)
      ensures r.Ok? ==>
                && r.value.1 == |MembersWithUsers(db.Contents(), w)|
                && Elements(r.value.0) <= MembersWithUsers(db.Contents(), w)
                && Distinct(r.value.0) && InOrder(r.value.0, JoinedNoLater)
                && |r.value.0| == PageLength(r.value.1, page, if 1 <= pageSize <= 100 then pageSize else 50)
    {
      if actor == NIL_ID || w == NIL_ID {
        return Err(BadInput);
      }
      var p, size := page, pageSize;
      if p <= 0 {
        p := 1;
      }
      if size <= 0 || size > 100 {
        size := 50;
      }
      if (w, actor) !in db.members {
        return Err(NotFound);
      }
      var rows := MembersWithUsers(db.Contents(), w);
      PageIsSlice(env.orderMembers(rows), rows, JoinedNoLater, page, PageSize(pageSize, 50));
      return Ok((Fetch(env.orderMembers(rows), Wrap((p - 1) * size), size), |rows|));
    }

    method Update(actor: Id, w: Id, name: string) returns (r: Result<Workspace, WorkspaceError>)
      modifies db
      ensures Outcome(db.Contents(), r) == WorkspaceSpec.Update(env, old(db.Contents()), actor, w, name)
      ensures UpdateAnswers(env, old(db.Contents()), actor, w, name, db.Contents(), r)
    {
      UpdateExactly(env, db.Contents(), actor, w, name);
      var name' := env.trim(name);
      if actor == NIL_ID || w == NIL_ID || name' == "" {
        return Err(BadInput);
      }
      if ByteLength(name') > 100 {
        return Err(BadInput);
      }
      if w !in db.workspaces {
        return Err(NotFound);
      }
      var ws := db.workspaces[w];
      if (w, actor) !in db.members {
        return Err(NotFound);
      }
      ws := ws.(name := name');
      db.workspaces := db.workspaces[w := ws];
      return Ok(ws);
    }

    method Delete(actor: Id, w: Id) returns (r: Result<(), WorkspaceError>)
      modifies db
      ensures Outcome(db.Contents(), r) == WorkspaceSpec.Delete(old(db.Contents()), actor, w)
      ensures DeleteAnswers(old(db.Contents()), actor, w, db.Contents(), r)
    {
      DeleteExactly(db.Contents(), actor, w);
      if actor == NIL_ID || w == NIL_ID {
        return Err(BadInput);
      }
      if w !in db.workspaces {
        return Err(NotFound);
      }
      var ws := db.workspaces[w];
      if (w, actor) !in db.members {
        return Err(NotFound);
      }
      if ws.owner != actor {
        return Err(NotOwner);
      }
      db.DeleteRow(w);
      return Ok(());
    }
  }

  class InvitationService {
    const db: Database
    const env: Env

    constructor (db: Database, env: Env)
      ensures this.db == db && this.env == env
    {
      this.db, this.env := db, env;
    }

    /** The transaction that stores a new invitation and mails it. */
    method StoreInvitation(i: Id, row: Invitation, sent: bool) returns (r: Result<(), WorkspaceError>)
      modifies db
      ensures Outcome(db.Contents(), r) == InsertInvitation(old(db.Contents()), i, row, sent)
    {
      var workspaces, members, invitations := db.workspaces, db.members, db.invitations;
      var taken := db.RowWithToken(row.token, None);
      if taken.Some? || row.workspace !in db.workspaces || row.invitedBy !in db.users {
        return Err(Refused);
      }
      db.invitations := db.invitations[i := row];
      if !sent {
        db.Rollback(workspaces, members, invitations);
        return Err(EmailNotSent);
      }
      return Ok(());
    }

    method Invite(w: Id, inviter: Id, email: string, found: Option<Id>, i: Id, token: string, sent: bool, now: int)
        returns (r: Result<(), WorkspaceError>)
      requires FindsInvitation(db.Contents(), w, env.lower(env.trim(email)), found)
      modifies db
      ensures Outcome(db.Contents(), r)
          == WorkspaceSpec.Invite(env, old(db.Contents()), w, inviter, email, found, i, token, sent, now)
      ensures InviteAnswers(env, old(db.Contents()), w, inviter, email, found, i, token, sent, now,
                            db.Contents(), r)
    {
      InviteExactly(env, db.Contents(), w, inviter, email, found, i, token, sent, now);
      if w == NIL_ID || inviter == NIL_ID || env.trim(email) == "" {
        return Err(BadInput);
      }
      var email' := env.lower(env.trim(email));
      if (w, inviter) !in db.members {
        return Err(NotFound);
      }
      if db.members[(w, inviter)].role != Admin {
        return Err(NotAdmin);
      }
      if found.Some? && db.invitations[found.value].usedAt.Some? {
        return Err(AlreadyUsed);
      }
      if found.Some? && db.invitations[found.value].expiresAt > now {
        return Err(StillValid);
      }
      r := StoreInvitation(i, Invitation(w, email', token, inviter, now + INVITATION_EXPIRY, None), sent);
    }

    method ResendInvitation(w: Id, inviter: Id, email: string, found: Option<Id>, i: Id, token: string, sent: bool,
        now: int)
        returns (r: Result<(), WorkspaceError>)
      requires FindsInvitation(db.Contents(), w, env.lower(env.trim(email)), found)
      modifies db
      ensures Outcome(db.Contents(), r)
          == WorkspaceSpec.ResendInvitation(env, old(db.Contents()), w, inviter, email, found, i, token, sent, now)
      ensures ResendAnswers(env, old(db.Contents()), w, inviter, email, found, i, token, sent, now,
                            db.Contents(), r)
    {
      ResendExactly(env, db.Contents(), w, inviter, email, found, i, token, sent, now);
      if w == NIL_ID || inviter == NIL_ID || env.trim(email) == "" {
        return Err(BadInput);
      }
      var email' := env.lower(env.trim(email));
      if (w, inviter) !in db.members {
        return Err(NotFound);
      }
      if db.members[(w, inviter)].role != Admin {
        return Err(NotAdmin);
      }
      if found.Some? && db.invitations[found.value].usedAt.Some? {
        return Err(AlreadyUsed);
      }
      if found.Some? && db.invitations[found.value].expiresAt > now {
        return Err(StillValid);
      }
      if found.None? {
        r := StoreInvitation(i, Invitation(w, email', token, inviter, now + INVITATION_EXPIRY, None), sent);
        return;
      }
      var workspaces, members, invitations := db.workspaces, db.members, db.invitations;
      var existing := db.invitations[found.value];
      existing := existing.(expiresAt := now + INVITATION_EXPIRY);
      existing := existing.(token := token);
      var taken := db.RowWithToken(token, found);
      if taken.Some? {
        return Err(Refused);
      }
      db.invitations := db.invitations[found.value := existing];
      if !sent {
        db.Rollback(workspaces, members, invitations);
        return Err(EmailNotSent);
      }
      return Ok(());
    }

    method AcceptInvitation(actor: Id, token: string, now: int) returns (r: Result<Id, WorkspaceError>)
      requires UniqueTokens(db.Contents())
      modifies db
      ensures Outcome(db.Contents(), r) == WorkspaceSpec.AcceptInvitation(old(db.Contents()), actor, token, now)
      ensures AcceptAnswers(old(db.Contents()), actor, token, now, db.Contents(), r)
    {
      AcceptExactly(db.Contents(), actor, token, now);
      if actor == NIL_ID || token == "" {
        return Err(BadInput);
      }
      var found := db.RowWithToken(token, None);
      assert found == FindByToken(db.Contents(), token) by {
        if found.Some? {
          assert HasToken(db.Contents(), found.value, token);
        }
      }
      if found.None? {
        return Err(NotFound);
      }
      var row := db.invitations[found.value];
      if row.usedAt.Some? {
        return Err(AlreadyUsed);
      }
      if row.expiresAt < now {
        return Err(Expired);
      }
      if actor !in db.users {
        return Err(UserNotFound);
      }
      if db.users[actor].email != row.email {
        return Err(EmailMismatch);
      }
      if (row.workspace, actor) in db.members {
        return Err(AlreadyMember);
      }
      r := AcceptTransaction(actor, found.value, row.workspace, now);
    }

    /** Joins and marks the invitation, or rolls back. */
    method AcceptTransaction(actor: Id, i: Id, w: Id, now: int) returns (r: Result<Id, WorkspaceError>)
      modifies db
      ensures Outcome(db.Contents(), r) == AcceptCommit(old(db.Contents()), actor, i, w, now)
    {
      var workspaces, members, invitations := db.workspaces, db.members, db.invitations;
      var joined := db.AddMemberRow(w, actor, Member, now);
      if !joined {
        return Err(Refused);
      }
      var marked := db.MarkInvitationUsed(i, now);
      if !marked {
        db.Rollback(workspaces, members, invitations);
        return Err(Refused);
      }
      return Ok(w);
    }
  }
}
