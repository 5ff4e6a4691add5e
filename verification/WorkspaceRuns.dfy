/**
 * Runs of the workspace and invitation services. Accepting an invitation is two steps, its reads and its
 * transaction, and any number of accepts may be under way; every other call is one step. Users and their
 * emails are fixed, ids are fresh.
 */
module WorkspaceRuns {
  import opened Prelude
  import opened WorkspaceStore
  import opened WorkspaceSpec

  /** An accept between its reads and its transaction. */
  datatype Accepting = Accepting(actor: Id, invitation: Id, workspace: Id)

  /** `ids` are the workspace and invitation ids ever handed out. */
  datatype State = State(db: Db, accepting: map<nat, Accepting>, ids: set<Id>)

  datatype Action =
    | DoCreate(owner: Id, name: string, w: Id, random: string)
    | DoUpdate(actor: Id, w: Id, name: string)
    | DoDelete(actor: Id, w: Id)
    | DoInvite(w: Id, inviter: Id, email: string, found: Option<Id>, i: Id, token: string, sent: bool)
    | DoResend(w: Id, inviter: Id, email: string, found: Option<Id>, i: Id, token: string, sent: bool)
    | AcceptReads(thread: nat, actor: Id, token: string)
    | AcceptTransaction(thread: nat)

  ghost predicate Init(s: State) {
    && s.db.workspaces == map[] && s.db.members == map[] && s.db.invitations == map[]
    && s.accepting == map[] && s.ids == {}
    && UniqueEmails(s.db)
  }

  /** The unique index on users.email. */
  ghost predicate UniqueEmails(db: Db) {
    forall u, v :: u in db.users && v in db.users && db.users[u].email == db.users[v].email ==> u == v
  }

  function NewIds(a: Action): set<Id> {
    match a
    case DoCreate(_, _, w, _) => {w}
    case DoInvite(_, _, _, _, i, _, _) => {i}
    case DoResend(_, _, _, _, i, _, _) => {i}
    case _ => {}
  }

  ghost predicate Enabled(env: Env, s: State, a: Action) {
    && NewIds(a) !! s.ids
    && match a
       case DoInvite(w, _, email, found, _, _, _) => FindsInvitation(s.db, w, env.lower(env.trim(email)), found)
       case DoResend(w, _, email, found, _, _, _) => FindsInvitation(s.db, w, env.lower(env.trim(email)), found)
       case AcceptReads(t, _, _) => t !in s.accepting
       case AcceptTransaction(t) => t in s.accepting
       case _ => true
  }

  ghost function Apply(env: Env, s: State, a: Action, now: int): State
    requires Enabled(env, s, a)
  {
    var ids := s.ids + NewIds(a);
    match a
    case DoCreate(owner, name, w, random) => State(Create(env, s.db, owner, name, w, random, now).db, s.accepting, ids)
    case DoUpdate(actor, w, name) => State(Update(env, s.db, actor, w, name).db, s.accepting, ids)
    case DoDelete(actor, w) => State(Delete(s.db, actor, w).db, s.accepting, ids)
    case DoInvite(w, inviter, email, found, i, token, sent) =>
      State(Invite(env, s.db, w, inviter, email, found, i, token, sent, now).db, s.accepting, ids)
    case DoResend(w, inviter, email, found, i, token, sent) =>
      State(ResendInvitation(env, s.db, w, inviter, email, found, i, token, sent, now).db, s.accepting, ids)
    case AcceptReads(t, actor, token) =>
      var checked := AcceptCheck(s.db, actor, token, now);
      AcceptCheckNames(s.db, actor, token, now);
      if checked.Err? then s
      else s.(accepting := s.accepting[t := Accepting(actor, checked.value, s.db.invitations[checked.value].workspace)])
    case AcceptTransaction(t) =>
      var p := s.accepting[t];
      State(AcceptCommit(s.db, p.actor, p.invitation, p.workspace, now).db, s.accepting - {t}, ids)
  }

  // ----- what every reachable state satisfies -----

  ghost function MembersOf(db: Db, w: Id): set<Id> {
    set u | u in db.users && (w, u) in db.members
  }

  ghost function UsedInvitationsOf(db: Db, w: Id): set<Id> {
    set i | i in db.invitations && db.invitations[i].workspace == w && db.invitations[i].usedAt.Some?
  }

  /** One ADMIN, the owner; everyone else came by invitation. */
  ghost predicate OwnerIsTheAdmin(db: Db) {
    && (forall w :: w in db.workspaces ==> (w, db.workspaces[w].owner) in db.members)
    && (forall w, u :: (w, u) in db.members ==>
          w in db.workspaces && u in db.users
          && db.members[(w, u)].role == if u == db.workspaces[w].owner then Admin else Member)
  }

  ghost predicate AddresseeJoined(db: Db, row: Invitation) {
    exists u :: u in db.users && db.users[u].email == row.email && (row.workspace, u) in db.members
  }

  /** A used invitation's addressee is a member; invitations belong to workspaces. */
  ghost predicate UsedAreMembers(db: Db) {
    && (forall i :: i in db.invitations ==> db.invitations[i].workspace in db.workspaces)
    && (forall i :: i in db.invitations && db.invitations[i].usedAt.Some? ==>
          AddresseeJoined(db, db.invitations[i]))
  }

  ghost predicate Balanced(db: Db) {
    forall w :: w in db.workspaces ==> |MembersOf(db, w)| == 1 + |UsedInvitationsOf(db, w)|
  }

  /** The invitation an accept has read, if it still exists, is still for that workspace and that actor. */
  ghost predicate StillAddressed(db: Db, p: Accepting) {
    && p.actor in db.users
    && (p.invitation in db.invitations ==>
          db.invitations[p.invitation].workspace == p.workspace
              && db.invitations[p.invitation].email == db.users[p.actor].email)
  }

  ghost predicate Handed(s: State) {
    && (forall w :: w in s.db.workspaces ==> w in s.ids)
    && (forall i :: i in s.db.invitations ==> i in s.ids)
    && (forall t :: t in s.accepting ==> s.accepting[t].invitation in s.ids && StillAddressed(s.db, s.accepting[t]))
  }

  ghost predicate Inv(s: State) {
    && UniqueEmails(s.db)
    && OwnerIsTheAdmin(s.db)
    && UsedAreMembers(s.db)
    && Balanced(s.db)
    && Handed(s)
  }

  lemma InitInv(s: State)
    requires Init(s)
    ensures Inv(s)
  {
  }

  /** Creating a workspace adds it with its owner as its only member and no invitation. */
  lemma CreateInv(env: Env, s: State, a: Action, now: int)
    requires Inv(s) && Enabled(env, s, a) && a.DoCreate?
    ensures Inv(Apply(env, s, a, now))
  {
    assert a.w in NewIds(a) && a.w !in s.db.workspaces;
    var outcome := Create(env, s.db, a.owner, a.name, a.w, a.random, now);
    if outcome.reply.Ok? {
      CreateBalances(s.db, outcome.db, a.w, a.owner);
      CreateKeepsRows(s.db, outcome.db, a.w, a.owner);
    }
  }

  lemma CreateKeepsRows(db: Db, db': Db, w: Id, owner: Id)
    requires OwnerIsTheAdmin(db) && UsedAreMembers(db)
    requires w !in db.workspaces && owner in db.users && db'.users == db.users && db'.invitations == db.invitations
    requires w in db'.workspaces && db'.workspaces == db.workspaces[w := db'.workspaces[w]]
    requires db'.workspaces[w].owner == owner
    requires (w, owner) in db'.members && db'.members[(w, owner)].role == Admin
    requires db'.members == db.members[(w, owner) := db'.members[(w, owner)]]
    ensures OwnerIsTheAdmin(db') && UsedAreMembers(db')
  {
    forall i | i in db'.invitations && db'.invitations[i].usedAt.Some?
      ensures AddresseeJoined(db', db'.invitations[i])
    {
      var row := db.invitations[i];
      assert AddresseeJoined(db, row);
      var u :| u in db.users && db.users[u].email == row.email && (row.workspace, u) in db.members;
      assert (row.workspace, u) in db'.members;
    }
  }

  lemma CreateBalances(db: Db, db': Db, w: Id, owner: Id)
    requires Balanced(db) && OwnerIsTheAdmin(db) && UsedAreMembers(db)
    requires w !in db.workspaces && owner in db.users && db'.users == db.users && db'.invitations == db.invitations
    requires db'.workspaces.Keys == db.workspaces.Keys + {w}
    requires db'.members.Keys == db.members.Keys + {(w, owner)}
    ensures Balanced(db')
  {
    forall v | v in db'.workspaces ensures |MembersOf(db', v)| == 1 + |UsedInvitationsOf(db', v)| {
      if v == w {
        assert forall u :: (w, u) in db'.members.Keys <==> u == owner;
        assert MembersOf(db', v) == {owner};
        assert forall i :: i in db.invitations ==> db.invitations[i].workspace != w;
        assert UsedInvitationsOf(db', v) == {};
      } else {
        assert MembersOf(db', v) == MembersOf(db, v);
        assert UsedInvitationsOf(db', v) == UsedInvitationsOf(db, v);
      }
    }
  }

  lemma UpdateInv(env: Env, s: State, a: Action, now: int)
    requires Inv(s) && Enabled(env, s, a) && a.DoUpdate?
    ensures Inv(Apply(env, s, a, now))
  {
    var db' := Update(env, s.db, a.actor, a.w, a.name).db;
    assert forall w :: w in s.db.workspaces ==>
        w in db'.workspaces && db'.workspaces[w].owner == s.db.workspaces[w].owner;
    SameRowsBalance(s.db, db');
  }

  lemma SameRowsBalance(db: Db, db': Db)
    requires Balanced(db) && db'.workspaces.Keys == db.workspaces.Keys
    requires db'.users == db.users && db'.members == db.members && db'.invitations == db.invitations
    ensures Balanced(db')
  {
    forall w | w in db'.workspaces ensures |MembersOf(db', w)| == 1 + |UsedInvitationsOf(db', w)| {
      assert MembersOf(db', w) == MembersOf(db, w);
      assert UsedInvitationsOf(db', w) == UsedInvitationsOf(db, w);
    }
  }

  lemma DeleteInv(env: Env, s: State, a: Action, now: int)
    requires Inv(s) && Enabled(env, s, a) && a.DoDelete?
    ensures Inv(Apply(env, s, a, now))
  {
    if Delete(s.db, a.actor, a.w).reply.Ok? {
      DeleteBalances(s.db, a.w);
      DeleteKeepsRows(s.db, a.w);
    }
  }

  lemma DeleteKeepsRows(db: Db, gone: Id)
    requires OwnerIsTheAdmin(db) && UsedAreMembers(db)
    ensures OwnerIsTheAdmin(DeleteWorkspace(db, gone)) && UsedAreMembers(DeleteWorkspace(db, gone))
  {
    var db' := DeleteWorkspace(db, gone);
    forall i | i in db'.invitations && db'.invitations[i].usedAt.Some?
      ensures AddresseeJoined(db', db'.invitations[i])
    {
      assert AddresseeJoined(db, db.invitations[i]);
      var row := db.invitations[i];
      var u :| u in db.users && db.users[u].email == row.email && (row.workspace, u) in db.members;
      assert (db'.invitations[i].workspace, u) in db'.members;
    }
  }

  lemma DeleteBalances(db: Db, gone: Id)
    requires Balanced(db)
    ensures Balanced(DeleteWorkspace(db, gone))
  {
    var db' := DeleteWorkspace(db, gone);
    forall w | w in db'.workspaces ensures |MembersOf(db', w)| == 1 + |UsedInvitationsOf(db', w)| {
      assert MembersOf(db', w) == MembersOf(db, w);
      assert UsedInvitationsOf(db', w) == UsedInvitationsOf(db, w);
    }
  }

  /** Inviting and re-inviting change unused invitations only. */
  lemma InvitationWrite(s: State, i: Id, row: Invitation)
    requires Inv(s) && row.usedAt.None? && row.workspace in s.db.workspaces
    requires i in s.db.invitations ==>
               && s.db.invitations[i].usedAt.None?
               && s.db.invitations[i].workspace == row.workspace && s.db.invitations[i].email == row.email
    requires i !in s.db.invitations ==> i !in s.ids
    ensures Inv(s.(db := s.db.(invitations := s.db.invitations[i := row]), ids := s.ids + {i}))
  {
    var db, db' := s.db, s.db.(invitations := s.db.invitations[i := row]);
    forall w | w in db'.workspaces ensures |MembersOf(db', w)| == 1 + |UsedInvitationsOf(db', w)| {
      assert MembersOf(db', w) == MembersOf(db, w);
      assert UsedInvitationsOf(db', w) == UsedInvitationsOf(db, w);
    }
  }

  lemma InviteInv(env: Env, s: State, a: Action, now: int)
    requires Inv(s) && Enabled(env, s, a) && a.DoInvite?
    ensures Inv(Apply(env, s, a, now))
  {
    var db, db' := s.db, Apply(env, s, a, now).db;
    if db'.invitations != db.invitations {
      assert a.i in NewIds(a) && a.i !in db.invitations;
      InvitationWrite(s, a.i, db'.invitations[a.i]);
    }
  }

  lemma ResendInv(env: Env, s: State, a: Action, now: int)
    requires Inv(s) && Enabled(env, s, a) && a.DoResend?
    ensures Inv(Apply(env, s, a, now))
  {
    if a.found.Some? {
      RenewInv(env, s, a, now);
    } else {
      var db, db' := s.db, Apply(env, s, a, now).db;
      if db'.invitations != db.invitations {
        assert a.i in NewIds(a) && a.i !in db.invitations;
        InvitationWrite(s, a.i, db'.invitations[a.i]);
      }
    }
  }

  lemma RenewInv(env: Env, s: State, a: Action, now: int)
    requires Inv(s) && Enabled(env, s, a) && a.DoResend? && a.found.Some?
    ensures Inv(Apply(env, s, a, now))
  {
    var db, db' := s.db, Apply(env, s, a, now).db;
    if db'.invitations != db.invitations {
      assert db.invitations[a.found.value].usedAt.None?;
      InvitationWrite(s, a.found.value, db'.invitations[a.found.value]);
    }
  }

  lemma AcceptReadsInv(env: Env, s: State, a: Action, now: int)
    requires Inv(s) && Enabled(env, s, a) && a.AcceptReads?
    ensures Inv(Apply(env, s, a, now))
  {
  }

  /**
   * The transaction adds one member and marks one invitation, and the invitation was not used before:
   * otherwise the actor, its only addressee, would be a member already and the membership key would refuse.
   */
  lemma AcceptCommitInv(env: Env, s: State, a: Action, now: int)
    requires Inv(s) && Enabled(env, s, a) && a.AcceptTransaction?
    ensures Inv(Apply(env, s, a, now))
  {
    var p := s.accepting[a.thread];
    var outcome := AcceptCommit(s.db, p.actor, p.invitation, p.workspace, now);
    if outcome.reply.Ok? {
      CommitUsesFresh(s.db, p, now);
      CommitBalances(s.db, p, now);
      CommitKeepsRows(s, p, now);
    }
  }

  lemma CommitUsesFresh(db: Db, p: Accepting, now: int)
    requires UniqueEmails(db) && UsedAreMembers(db) && StillAddressed(db, p)
    requires AcceptCommit(db, p.actor, p.invitation, p.workspace, now).reply.Ok?
    ensures p.invitation in db.invitations && db.invitations[p.invitation].usedAt.None?
  {
  }

  lemma CommitBalances(db: Db, p: Accepting, now: int)
    requires Balanced(db) && StillAddressed(db, p)
    requires AcceptCommit(db, p.actor, p.invitation, p.workspace, now).reply.Ok?
    requires p.invitation in db.invitations && db.invitations[p.invitation].usedAt.None?
    ensures Balanced(AcceptCommit(db, p.actor, p.invitation, p.workspace, now).db)
  {
    var db' := AcceptCommit(db, p.actor, p.invitation, p.workspace, now).db;
    forall w | w in db'.workspaces ensures |MembersOf(db', w)| == 1 + |UsedInvitationsOf(db', w)| {
      CommitCounts(db, p, now, w);
    }
  }

  /** The transaction makes one user a member of one workspace and one invitation of it used. */
  lemma CommitCounts(db: Db, p: Accepting, now: int, w: Id)
    requires StillAddressed(db, p)
    requires AcceptCommit(db, p.actor, p.invitation, p.workspace, now).reply.Ok?
    requires p.invitation in db.invitations && db.invitations[p.invitation].usedAt.None?
    ensures var db' := AcceptCommit(db, p.actor, p.invitation, p.workspace, now).db;
            var more := if w == p.workspace then 1 else 0;
            && |MembersOf(db', w)| == |MembersOf(db, w)| + more
            && |UsedInvitationsOf(db', w)| == |UsedInvitationsOf(db, w)| + more
  {
    var db' := AcceptCommit(db, p.actor, p.invitation, p.workspace, now).db;
    if w == p.workspace {
      assert MembersOf(db', w) == MembersOf(db, w) + {p.actor};
      assert UsedInvitationsOf(db', w) == UsedInvitationsOf(db, w) + {p.invitation};
    } else {
      assert MembersOf(db', w) == MembersOf(db, w);
      assert UsedInvitationsOf(db', w) == UsedInvitationsOf(db, w);
    }
  }

  lemma CommitKeepsRows(s: State, p: Accepting, now: int)
    requires Inv(s) && StillAddressed(s.db, p)
    requires AcceptCommit(s.db, p.actor, p.invitation, p.workspace, now).reply.Ok?
    ensures var db' := AcceptCommit(s.db, p.actor, p.invitation, p.workspace, now).db;
            && OwnerIsTheAdmin(db') && UsedAreMembers(db')
            && (forall q :: StillAddressed(s.db, q) ==> StillAddressed(db', q))
            && db'.invitations.Keys == s.db.invitations.Keys && db'.workspaces == s.db.workspaces
  {
    var db' := AcceptCommit(s.db, p.actor, p.invitation, p.workspace, now).db;
    forall i | i in db'.invitations && db'.invitations[i].usedAt.Some?
      ensures AddresseeJoined(db', db'.invitations[i])
    {
      if i == p.invitation {
        assert (db'.invitations[i].workspace, p.actor) in db'.members;
      } else {
        var row := s.db.invitations[i];
        assert AddresseeJoined(s.db, row);
        var u :| u in s.db.users && s.db.users[u].email == row.email && (row.workspace, u) in s.db.members;
        assert (db'.invitations[i].workspace, u) in db'.members;
      }
    }
  }

  lemma StepInv(env: Env, s: State, a: Action, now: int)
    requires Inv(s) && Enabled(env, s, a)
    ensures Inv(Apply(env, s, a, now))
  {
    match a {
      case DoCreate(_, _, _, _) => CreateInv(env, s, a, now);
      case DoUpdate(_, _, _) => UpdateInv(env, s, a, now);
      case DoDelete(_, _) => DeleteInv(env, s, a, now);
      case DoInvite(_, _, _, _, _, _, _) => InviteInv(env, s, a, now);
      case DoResend(_, _, _, _, _, _, _) => ResendInv(env, s, a, now);
      case AcceptReads(_, _, _) => AcceptReadsInv(env, s, a, now);
      case AcceptTransaction(_) => AcceptCommitInv(env, s, a, now);
    }
  }

  // ----- runs -----

  datatype Step = Step(action: Action, now: int)

  ghost predicate Legal(env: Env, s: State, run: seq<Step>)
    decreases |run|
  {
    run == [] || (Enabled(env, s, run[0].action) && Legal(env, Apply(env, s, run[0].action, run[0].now), run[1..]))
  }

  ghost function After(env: Env, s: State, run: seq<Step>): State
    requires Legal(env, s, run)
    decreases |run|
  {
    if run == [] then s else After(env, Apply(env, s, run[0].action, run[0].now), run[1..])
  }

  lemma {:induction false} RunInv(env: Env, s: State, run: seq<Step>)
    requires Inv(s) && Legal(env, s, run)
    ensures Inv(After(env, s, run))
    decreases |run|
  {
    if run != [] {
      StepInv(env, s, run[0].action, run[0].now);
      RunInv(env, Apply(env, s, run[0].action, run[0].now), run[1..]);
    }
  }

  /** Every workspace has one member more than it has used invitations, whatever accepts raced. */
  lemma MembersAreOwnerPlusUsed(env: Env, s: State, run: seq<Step>, w: Id)
    requires Init(s) && Legal(env, s, run) && w in After(env, s, run).db.workspaces
    ensures var db := After(env, s, run).db; |MembersOf(db, w)| == 1 + |UsedInvitationsOf(db, w)|
  {
    InitInv(s);
    RunInv(env, s, run);
  }

  /** A workspace's only ADMIN is its owner. */
  lemma OnlyAdminIsOwner(env: Env, s: State, run: seq<Step>, w: Id, u: Id)
    requires Init(s) && Legal(env, s, run) && w in After(env, s, run).db.workspaces
    ensures var db := After(env, s, run).db;
            (IsMember(db, w, u) && db.members[(w, u)].role == Admin) <==> u == db.workspaces[w].owner
  {
    InitInv(s);
    RunInv(env, s, run);
  }

  /** The role gate on the delete route, for an actor with an id. */
  predicate AdminGate(db: Db, w: Id, actor: Id) {
    actor != NIL_ID && w != NIL_ID && (w, actor) in db.members && db.members[(w, actor)].role == Admin
  }

  /** The ADMIN route gate admits an actor exactly when the service lets that actor delete the workspace. */
  lemma GateAgreesWithDelete(env: Env, s: State, run: seq<Step>, w: Id, actor: Id)
    requires Init(s) && Legal(env, s, run)
    ensures var db := After(env, s, run).db;
            AdminGate(db, w, actor) <==> Delete(db, actor, w).reply.Ok?
  {
    InitInv(s);
    RunInv(env, s, run);
  }

  /** A second accept of a used invitation fails and changes nothing, even when both had passed their reads. */
  lemma SecondAcceptRollsBack(env: Env, s: State, run: seq<Step>, t: nat, now: int)
    requires Init(s) && Legal(env, s, run) && t in After(env, s, run).accepting
    requires var s' := After(env, s, run);
             var i := s'.accepting[t].invitation;
             i in s'.db.invitations && s'.db.invitations[i].usedAt.Some?
    ensures var s' := After(env, s, run);
            var p := s'.accepting[t];
            AcceptCommit(s'.db, p.actor, p.invitation, p.workspace, now) == Outcome(s'.db, Err(Refused))
  {
    InitInv(s);
    RunInv(env, s, run);
    var s' := After(env, s, run);
    if AcceptCommit(s'.db, s'.accepting[t].actor, s'.accepting[t].invitation, s'.accepting[t].workspace,
        now).reply.Ok? {
      CommitUsesFresh(s'.db, s'.accepting[t], now);
    }
  }
}
