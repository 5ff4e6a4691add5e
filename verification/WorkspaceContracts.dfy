/**
 * What each workspace and invitation call promises, said of the tables before and after and of the answer: when
 * exactly it succeeds, when exactly it is refused with which error, and what it changes.
 */
module WorkspaceContracts {
  import opened Prelude
  import opened WorkspaceStore
  import opened WorkspaceSpec
  import Slug

  const TWO_DAYS := 172_800_000_000_000

  predicate AcceptableName(name: string) {
    name != "" && ByteLength(name) <= 100
  }

  predicate IsMemberOf(db: Db, w: Id, u: Id) {
    w in db.workspaces && (w, u) in db.members
  }

  // ----- workspaces -----

  ghost predicate CreateAnswers(env: Env, db: Db, owner: Id, name: string, w: Id, random: string, now: int,
                                db': Db, reply: Result<Id, WorkspaceError>) {
    var name := env.trim(name);
    var slug := Slug.GenerateSlug(env.lowerOther, name, random);
    var good := owner != 0 && AcceptableName(name);
    var free := forall v :: v in db.workspaces ==> db.workspaces[v].slug != slug;
    && (reply == Err(BadInput) <==> !good)
    && (reply == Ok(w) <==> good && free && owner in db.users && (w, owner) !in db.members)
    && (reply == Err(Refused) <==> good && !(free && owner in db.users && (w, owner) !in db.members))
    && (reply.Ok? ==>
          && db'.workspaces == db.workspaces[w := Workspace(name, slug, owner, now)]
          && db'.members == db.members[(w, owner) := Membership(Admin, now)]
          && db'.users == db.users && db'.invitations == db.invitations)
    && (reply.Err? ==> db' == db)
  }

  lemma CreateExactly(env: Env, db: Db, owner: Id, name: string, w: Id, random: string, now: int)
    ensures var outcome := Create(env, db, owner, name, w, random, now);
            CreateAnswers(env, db, owner, name, w, random, now, outcome.db, outcome.reply)
  {
  }

  predicate GetAnswers(db: Db, actor: Id, w: Id, reply: Result<Workspace, WorkspaceError>) {
    && (reply == Err(BadInput) <==> actor == 0 || w == 0)
    && (reply == Err(NotFound) <==> actor != 0 && w != 0 && !IsMemberOf(db, w, actor))
    && (reply.Ok? <==> actor != 0 && w != 0 && IsMemberOf(db, w, actor))
    && (reply.Ok? ==> w in db.workspaces && reply.value == db.workspaces[w])
  }

  lemma GetExactly(db: Db, actor: Id, w: Id)
    ensures GetAnswers(db, actor, w, GetByID(db, actor, w))
  {
  }

  ghost predicate UpdateAnswers(env: Env, db: Db, actor: Id, w: Id, name: string,
                                db': Db, reply: Result<Workspace, WorkspaceError>) {
    var name := env.trim(name);
    var good := actor != 0 && w != 0 && AcceptableName(name);
    && (reply == Err(BadInput) <==> !good)
    && (reply == Err(NotFound) <==> good && !IsMemberOf(db, w, actor))
    && (reply.Ok? <==> good && IsMemberOf(db, w, actor))
    && (reply.Ok? ==>
          && w in db.workspaces && reply.value == db.workspaces[w].(name := name)
          && db'.workspaces == db.workspaces[w := reply.value]
          && db'.members == db.members && db'.users == db.users && db'.invitations == db.invitations)
    && (reply.Err? ==> db' == db)
  }

  lemma UpdateExactly(env: Env, db: Db, actor: Id, w: Id, name: string)
    ensures var outcome := Update(env, db, actor, w, name);
            UpdateAnswers(env, db, actor, w, name, outcome.db, outcome.reply)
  {
  }

  /** What a successful update answers is what every member gets next. */
  lemma UpdateIsSeen(env: Env, db: Db, actor: Id, w: Id, name: string, other: Id)
    requires Update(env, db, actor, w, name).reply.Ok? && other != 0 && IsMember(db, w, other)
    ensures var outcome := Update(env, db, actor, w, name);
            GetByID(outcome.db, other, w) == outcome.reply && outcome.reply.value.name == env.trim(name)
  {
  }

  ghost predicate DeleteAnswers(db: Db, actor: Id, w: Id, db': Db, reply: Result<(), WorkspaceError>) {
    && (reply == Err(BadInput) <==> actor == 0 || w == 0)
    && (reply == Err(NotFound) <==> actor != 0 && w != 0 && !IsMemberOf(db, w, actor))
    && (reply == Err(NotOwner) <==>
          actor != 0 && w != 0 && IsMemberOf(db, w, actor) && db.workspaces[w].owner != actor)
    && (reply.Ok? <==> actor != 0 && w != 0 && IsMemberOf(db, w, actor) && db.workspaces[w].owner == actor)
    && (reply.Ok? ==> Deleted(db, db', w))
    && (reply.Err? ==> db' == db)
  }

  /** The workspace is gone with its memberships and invitations; all the rest is as it was. */
  ghost predicate Deleted(db: Db, db': Db, w: Id) {
    && db'.users == db.users && db'.workspaces == db.workspaces - {w}
    && (forall v, u :: (v, u) in db'.members <==> v != w && (v, u) in db.members)
    && (forall k :: k in db'.members && k in db.members ==> db'.members[k] == db.members[k])
    && (forall i :: i in db'.invitations <==> i in db.invitations && db.invitations[i].workspace != w)
    && (forall i :: i in db'.invitations && i in db.invitations ==> db'.invitations[i] == db.invitations[i])
  }

  lemma DeleteExactly(db: Db, actor: Id, w: Id)
    ensures var outcome := Delete(db, actor, w);
            DeleteAnswers(db, actor, w, outcome.db, outcome.reply)
  {
  }

  // ----- lists -----

  /** The member list has one entry for every membership of a user, with that user's fields and that membership's. */
  lemma MemberFields(db: Db, w: Id, m: MemberInfo)
    ensures m in MembersWithUsers(db, w) <==>
            && m.user in db.users && (w, m.user) in db.members
            && m.email == db.users[m.user].email
            && m.displayName == db.users[m.user].displayName
            && m.avatarUrl == db.users[m.user].avatarUrl
            && m.role == db.members[(w, m.user)].role
            && m.joinedAt == db.members[(w, m.user)].joinedAt
  {
    if m.user in db.users && (w, m.user) in db.members && m == InfoOf(db, w, m.user) {
      assert InfoOf(db, w, m.user) in MembersWithUsers(db, w);
    }
  }

  lemma WorkspaceFields(db: Db, u: Id, w: Id, row: Workspace)
    ensures (w, row) in WorkspacesOf(db, u) <==> IsMemberOf(db, w, u) && db.workspaces[w] == row
  {
  }

  // ----- inviting -----

  predicate GoodInvite(env: Env, w: Id, inviter: Id, email: string) {
    w != 0 && inviter != 0 && env.trim(email) != ""
  }

  predicate MayInvite(db: Db, w: Id, inviter: Id) {
    (w, inviter) in db.members && db.members[(w, inviter)].role == Admin
  }

  /** The refusals that Invite and ResendInvitation share; `found` is the row the lookup by address answered. */
  ghost predicate InviteRefusals(env: Env, db: Db, w: Id, inviter: Id, email: string, found: Option<Id>, now: int,
                                 reply: Result<(), WorkspaceError>)
    requires found.Some? ==> found.value in db.invitations
  {
    var good := GoodInvite(env, w, inviter, email);
    var may := good && MayInvite(db, w, inviter);
    && (reply == Err(BadInput) <==> !good)
    && (reply == Err(NotFound) <==> good && (w, inviter) !in db.members)
    && (reply == Err(NotAdmin) <==>
          good && (w, inviter) in db.members && db.members[(w, inviter)].role != Admin)
    && (reply == Err(AlreadyUsed) <==> may && found.Some? && db.invitations[found.value].usedAt.Some?)
    && (reply == Err(StillValid) <==>
          && may && found.Some? && db.invitations[found.value].usedAt.None?
          && now < db.invitations[found.value].expiresAt)
  }

  predicate MayWrite(env: Env, db: Db, w: Id, inviter: Id, email: string, found: Option<Id>, now: int)
    requires found.Some? ==> found.value in db.invitations
  {
    && GoodInvite(env, w, inviter, email) && MayInvite(db, w, inviter)
    && (found.Some? ==>
          db.invitations[found.value].usedAt.None? && db.invitations[found.value].expiresAt <= now)
  }

  ghost predicate TokenFree(db: Db, token: string) {
    forall i :: i in db.invitations ==> db.invitations[i].token != token
  }

  /** One new unused row for the address, good for two days, when token, workspace and inviter allow it. */
  ghost predicate Inserted(env: Env, db: Db, w: Id, inviter: Id, email: string, i: Id, token: string, sent: bool,
                           now: int, db': Db, reply: Result<(), WorkspaceError>) {
    var can := TokenFree(db, token) && w in db.workspaces && inviter in db.users;
    && (reply == Err(Refused) <==> !can)
    && (reply == Err(EmailNotSent) <==> can && !sent)
    && (reply.Ok? <==> can && sent)
    && (reply.Ok? ==>
          && db'.invitations
             == db.invitations[i := Invitation(w, env.lower(env.trim(email)), token, inviter, now + TWO_DAYS, None)]
          && db'.users == db.users && db'.workspaces == db.workspaces && db'.members == db.members)
  }

  ghost predicate InviteAnswers(env: Env, db: Db, w: Id, inviter: Id, email: string, found: Option<Id>, i: Id,
                                token: string, sent: bool, now: int, db': Db, reply: Result<(), WorkspaceError>)
    requires found.Some? ==> found.value in db.invitations
  {
    && InviteRefusals(env, db, w, inviter, email, found, now, reply)
    && (MayWrite(env, db, w, inviter, email, found, now) ==>
          Inserted(env, db, w, inviter, email, i, token, sent, now, db', reply))
    && (reply.Err? ==> db' == db)
  }

  lemma InviteExactly(env: Env, db: Db, w: Id, inviter: Id, email: string, found: Option<Id>, i: Id,
                      token: string, sent: bool, now: int)
    requires found.Some? ==> found.value in db.invitations
    ensures var outcome := Invite(env, db, w, inviter, email, found, i, token, sent, now);
            InviteAnswers(env, db, w, inviter, email, found, i, token, sent, now, outcome.db, outcome.reply)
  {
    TokenFreeExactly(db, token);
  }

  lemma TokenFreeExactly(db: Db, token: string)
    ensures TokenFree(db, token) <==> !TokenTaken(db, token, None)
  {
    if !TokenFree(db, token) {
      var i :| i in db.invitations && db.invitations[i].token == token;
      assert HasToken(db, i, token);
    }
  }

  /** The row found is good for two days more under the new token, unless another row has that token. */
  ghost predicate Renewed(db: Db, i: Id, token: string, sent: bool, now: int,
                          db': Db, reply: Result<(), WorkspaceError>)
    requires i in db.invitations
  {
    var can := forall j :: j in db.invitations && db.invitations[j].token == token ==> j == i;
    && (reply == Err(Refused) <==> !can)
    && (reply == Err(EmailNotSent) <==> can && !sent)
    && (reply.Ok? <==> can && sent)
    && (reply.Ok? ==>
          && i in db'.invitations && db'.invitations == db.invitations[i := db'.invitations[i]]
          && db'.invitations[i].token == token && db'.invitations[i].expiresAt == now + TWO_DAYS
          && db'.invitations[i].workspace == db.invitations[i].workspace
          && db'.invitations[i].email == db.invitations[i].email
          && db'.invitations[i].invitedBy == db.invitations[i].invitedBy
          && db'.invitations[i].usedAt == db.invitations[i].usedAt
          && db'.users == db.users && db'.workspaces == db.workspaces && db'.members == db.members)
  }

  ghost predicate ResendAnswers(env: Env, db: Db, w: Id, inviter: Id, email: string, found: Option<Id>, i: Id,
                                token: string, sent: bool, now: int, db': Db, reply: Result<(), WorkspaceError>)
    requires found.Some? ==> found.value in db.invitations
  {
    && InviteRefusals(env, db, w, inviter, email, found, now, reply)
    && (MayWrite(env, db, w, inviter, email, found, now) ==>
          if found.Some? then Renewed(db, found.value, token, sent, now, db', reply)
          else Inserted(env, db, w, inviter, email, i, token, sent, now, db', reply))
    && (reply.Err? ==> db' == db)
  }

  lemma ResendExactly(env: Env, db: Db, w: Id, inviter: Id, email: string, found: Option<Id>, i: Id,
                      token: string, sent: bool, now: int)
    requires found.Some? ==> found.value in db.invitations
    ensures var outcome := ResendInvitation(env, db, w, inviter, email, found, i, token, sent, now);
            ResendAnswers(env, db, w, inviter, email, found, i, token, sent, now, outcome.db, outcome.reply)
  {
    if found.None? {
      TokenFreeExactly(db, token);
    } else {
      OtherTokens(db, token, found.value);
    }
  }

  lemma OtherTokens(db: Db, token: string, i: Id)
    ensures TokenTaken(db, token, Some(i)) <==>
            !(forall j :: j in db.invitations && db.invitations[j].token == token ==> j == i)
  {
    if j :| j in db.invitations && db.invitations[j].token == token && j != i {
      assert HasToken(db, j, token);
    }
  }

  // ----- accepting -----

  /** The token's invitation, unused and not past its time, is for this very user, who is not in yet. */
  predicate Invites(db: Db, i: Id, token: string, actor: Id, now: int) {
    && i in db.invitations && db.invitations[i].token == token
    && db.invitations[i].usedAt.None? && now <= db.invitations[i].expiresAt
    && actor in db.users && db.users[actor].email == db.invitations[i].email
    && (db.invitations[i].workspace, actor) !in db.members
  }

  ghost predicate AcceptAnswers(db: Db, actor: Id, token: string, now: int,
                                db': Db, reply: Result<Id, WorkspaceError>) {
    && (reply == Err(BadInput) <==> actor == 0 || token == "")
    && (reply == Err(NotFound) <==> actor != 0 && token != "" && TokenFree(db, token))
    && (reply.Ok? <==>
          && actor != 0 && token != ""
          && exists i :: Invites(db, i, token, actor, now) && db.invitations[i].workspace in db.workspaces)
    && (reply.Err? ==> db' == db)
    && (actor != 0 && token != "" ==>
          forall i :: i in db.invitations && db.invitations[i].token == token ==>
            AcceptOf(db, i, actor, now, db', reply))
  }

  /** Which refusal the token's invitation meets, and what accepting it changes. */
  ghost predicate AcceptOf(db: Db, i: Id, actor: Id, now: int, db': Db, reply: Result<Id, WorkspaceError>)
    requires i in db.invitations
  {
    var row := db.invitations[i];
    var inTime := row.usedAt.None? && now <= row.expiresAt;
    && (reply == Err(AlreadyUsed) <==> row.usedAt.Some?)
    && (reply == Err(Expired) <==> row.usedAt.None? && row.expiresAt < now)
    && (reply == Err(UserNotFound) <==> inTime && actor !in db.users)
    && (reply == Err(EmailMismatch) <==> inTime && actor in db.users && db.users[actor].email != row.email)
    && (reply == Err(AlreadyMember) <==>
          && inTime && actor in db.users && db.users[actor].email == row.email
          && (row.workspace, actor) in db.members)
    && (reply.Ok? ==>
          && reply.value == row.workspace
          && db'.members == db.members[(row.workspace, actor) := Membership(Member, now)]
          && db'.invitations == db.invitations[i := row.(usedAt := Some(now))]
          && db'.users == db.users && db'.workspaces == db.workspaces)
  }

  lemma AcceptExactly(db: Db, actor: Id, token: string, now: int)
    requires UniqueTokens(db)
    ensures var outcome := AcceptInvitation(db, actor, token, now);
            AcceptAnswers(db, actor, token, now, outcome.db, outcome.reply)
  {
    TokenOwner(db, token);
    var found := FindByToken(db, token);
    if found.Some? && actor != 0 && token != "" {
      AcceptRowExactly(db, actor, token, now, found.value);
    }
  }

  lemma AcceptRowExactly(db: Db, actor: Id, token: string, now: int, i: Id)
    requires UniqueTokens(db) && FindByToken(db, token) == Some(i) && actor != 0 && token != ""
    ensures var outcome := AcceptInvitation(db, actor, token, now);
            && AcceptOf(db, i, actor, now, outcome.db, outcome.reply)
            && (outcome.reply.Ok? <==>
                  Invites(db, i, token, actor, now) && db.invitations[i].workspace in db.workspaces)
  {
  }

  /** Whichever row has the token is the one the lookup finds. */
  lemma TokenOwner(db: Db, token: string)
    requires UniqueTokens(db)
    ensures forall i :: i in db.invitations && db.invitations[i].token == token <==> FindByToken(db, token) == Some(i)
    ensures TokenFree(db, token) <==> FindByToken(db, token).None?
  {
    forall i | i in db.invitations && db.invitations[i].token == token ensures FindByToken(db, token) == Some(i) {
      assert HasToken(db, i, token);
    }
  }
}
