/**
 * What an actor can learn from the workspace service about workspaces it does not belong to: nothing.
 * Two stores that agree on the actor's own memberships and workspaces answer every sequence of the
 * actor's calls alike.
 */
module NonInterference {
  import opened Prelude
  import opened WorkspaceStore
  import opened WorkspaceSpec
  import opened WorkspaceContracts
  import opened TaskPaging

  /** The two stores show the same of workspace `w`: its row, and its members with their profiles. */
  ghost predicate SameWorkspace(a: Db, b: Db, w: Id) {
    && (w in a.workspaces <==> w in b.workspaces)
    && (w in a.workspaces && w in b.workspaces ==> a.workspaces[w] == b.workspaces[w])
    && (forall u :: SameMember(a, b, w, u))
  }

  predicate SameMember(a: Db, b: Db, w: Id, u: Id) {
    && ((w, u) in a.members && u in a.users <==> (w, u) in b.members && u in b.users)
    && ((w, u) in a.members && u in a.users && (w, u) in b.members && u in b.users ==>
          InfoOf(a, w, u) == InfoOf(b, w, u))
  }

  /** Agreement on everything the actor is a member of, and on what that is. */
  ghost predicate Agree(a: Db, b: Db, actor: Id) {
    && (forall w :: IsMember(a, w, actor) <==> IsMember(b, w, actor))
    && (forall w :: IsMember(a, w, actor) ==> SameWorkspace(a, b, w))
  }

  datatype Call =
    | GetCall(w: Id)
    | UpdateCall(w: Id, name: string)
    | DeleteCall(w: Id)
    | ListMembersCall(w: Id, page: int, pageSize: int)
    | ListMineCall(page: int, pageSize: int)

  datatype Reply =
    | OneWorkspace(row: Result<Workspace, WorkspaceError>)
    | Done(result: Result<(), WorkspaceError>)
    | MemberPage(members: Result<(seq<MemberInfo>, int), WorkspaceError>)
    | WorkspacePage(workspaces: Result<(seq<(Id, Workspace)>, int), WorkspaceError>)

  function Answer(env: Env, db: Db, actor: Id, c: Call): (Db, Reply) {
    match c
    case GetCall(w) => (db, OneWorkspace(GetByID(db, actor, w)))
    case UpdateCall(w, name) => var o := Update(env, db, actor, w, name); (o.db, OneWorkspace(o.reply))
    case DeleteCall(w) => var o := Delete(db, actor, w); (o.db, Done(o.reply))
    case ListMembersCall(w, page, pageSize) => (db, MemberPage(ListMembers(env, db, actor, w, page, pageSize)))
    case ListMineCall(page, pageSize) => (db, WorkspacePage(ListByUser(env, db, actor, page, pageSize)))
  }

  function Answers(env: Env, db: Db, actor: Id, calls: seq<Call>): seq<Reply>
    decreases |calls|
  {
    if calls == [] then []
    else
      var (db', reply) := Answer(env, db, actor, calls[0]);
      [reply] + Answers(env, db', actor, calls[1..])
  }

  /** The answers compared below are those the calls' contracts promise. */
  ghost predicate IsAnswer(env: Env, db: Db, actor: Id, c: Call, db': Db, reply: Reply) {
    match c
    case GetCall(w) => reply.OneWorkspace? && GetAnswers(db, actor, w, reply.row) && db' == db
    case UpdateCall(w, name) => reply.OneWorkspace? && UpdateAnswers(env, db, actor, w, name, db', reply.row)
    case DeleteCall(w) => reply.Done? && DeleteAnswers(db, actor, w, db', reply.result)
    case ListMembersCall(w, page, pageSize) =>
      && reply.MemberPage? && db' == db
      && (reply.members.Ok? <==> actor != 0 && w != 0 && (w, actor) in db.members)
      && (reply.members.Ok? ==>
            var size := if 1 <= pageSize <= 100 then pageSize else 50;
            IsSlice(reply.members.value, MembersWithUsers(db, w), page, size))
    case ListMineCall(page, pageSize) =>
      && reply.WorkspacePage? && db' == db
      && (reply.workspaces.Ok? <==> actor != 0)
      && (reply.workspaces.Ok? ==>
            var size := if 1 <= pageSize <= 100 then pageSize else 20;
            IsSlice(reply.workspaces.value, WorkspacesOf(db, actor), page, size))
  }

  /** A page of the rows, and how many rows there are. */
  ghost predicate IsSlice<T>(answer: (seq<T>, int), rows: set<T>, page: int, pageSize: int) {
    && answer.1 == |rows| && Elements(answer.0) <= rows && Distinct(answer.0)
    && |answer.0| == PageLength(|rows|, page, pageSize)
  }

  lemma AnswersKeepContracts(env: Env, db: Db, actor: Id, c: Call)
    requires DatabaseOrders(env)
    ensures var (db', reply) := Answer(env, db, actor, c); IsAnswer(env, db, actor, c, db', reply)
  {
    match c {
      case GetCall(w) => GetExactly(db, actor, w);
      case UpdateCall(w, name) => UpdateExactly(env, db, actor, w, name);
      case DeleteCall(w) => DeleteExactly(db, actor, w);
      case ListMembersCall(w, page, pageSize) =>
        var rows := MembersWithUsers(db, w);
        PageIsSlice(env.orderMembers(rows), rows, JoinedNoLater, page, PageSize(pageSize, 50));
      case ListMineCall(page, pageSize) =>
        var rows := WorkspacesOf(db, actor);
        PageIsSlice(env.orderWorkspaces(rows), rows, CreatedNoEarlier, page, PageSize(pageSize, 20));
    }
  }

  lemma SameVisible(a: Db, b: Db, actor: Id, w: Id)
    requires Agree(a, b, actor)
    ensures Visible(a, actor, w) == Visible(b, actor, w)
  {
    assert IsMember(a, w, actor) <==> IsMember(b, w, actor);
    assert IsMember(a, w, actor) ==> SameWorkspace(a, b, w);
  }

  lemma SameMemberRows(a: Db, b: Db, w: Id)
    requires SameWorkspace(a, b, w)
    ensures MembersWithUsers(a, w) == MembersWithUsers(b, w)
  {
    forall m | m in MembersWithUsers(a, w) ensures m in MembersWithUsers(b, w) {
      var u :| u in a.users && (w, u) in a.members && InfoOf(a, w, u) == m;
      assert SameMember(a, b, w, u);
    }
    forall m | m in MembersWithUsers(b, w) ensures m in MembersWithUsers(a, w) {
      var u :| u in b.users && (w, u) in b.members && InfoOf(b, w, u) == m;
      assert SameMember(a, b, w, u);
    }
  }

  lemma SameWorkspaceRows(a: Db, b: Db, actor: Id)
    requires Agree(a, b, actor)
    ensures WorkspacesOf(a, actor) == WorkspacesOf(b, actor)
  {
    forall w ensures (w in a.workspaces && (w, actor) in a.members)
          <==> (w in b.workspaces && (w, actor) in b.members) {
      assert IsMember(a, w, actor) <==> IsMember(b, w, actor);
      assert IsMember(a, w, actor) ==> SameWorkspace(a, b, w);
    }
    forall w | w in a.workspaces && (w, actor) in a.members ensures a.workspaces[w] == b.workspaces[w] {
      assert IsMember(a, w, actor);
    }
  }

  lemma SameReply(env: Env, a: Db, b: Db, actor: Id, c: Call)
    requires Agree(a, b, actor)
    ensures Answer(env, a, actor, c).1 == Answer(env, b, actor, c).1
  {
    match c {
      case ListMembersCall(w, page, pageSize) =>
        assert IsMember(a, w, actor) <==> IsMember(b, w, actor);
        if IsMember(a, w, actor) {
          SameMemberRows(a, b, w);
        }
      case ListMineCall(page, pageSize) => SameWorkspaceRows(a, b, actor);
      case _ => SameVisible(a, b, actor, c.w);
    }
  }

  lemma UpdateAgrees(env: Env, a: Db, b: Db, actor: Id, w: Id, name: string)
    requires Agree(a, b, actor)
    ensures Agree(Update(env, a, actor, w, name).db, Update(env, b, actor, w, name).db, actor)
  {
    SameVisible(a, b, actor, w);
    var a', b' := Update(env, a, actor, w, name).db, Update(env, b, actor, w, name).db;
    forall v | IsMember(a', v, actor) ensures SameWorkspace(a', b', v) {
      assert IsMember(a, v, actor);
      forall u ensures SameMember(a', b', v, u) {
        assert SameMember(a, b, v, u);
      }
    }
    forall v ensures IsMember(a', v, actor) <==> IsMember(b', v, actor) {
      assert IsMember(a, v, actor) <==> IsMember(b, v, actor);
    }
  }

  lemma DeleteAgrees(a: Db, b: Db, actor: Id, w: Id)
    requires Agree(a, b, actor)
    ensures Agree(Delete(a, actor, w).db, Delete(b, actor, w).db, actor)
  {
    SameVisible(a, b, actor, w);
    if Delete(a, actor, w).reply.Ok? {
      var a', b' := DeleteWorkspace(a, w), DeleteWorkspace(b, w);
      forall v ensures IsMember(a', v, actor) <==> IsMember(b', v, actor) {
        assert IsMember(a, v, actor) <==> IsMember(b, v, actor);
      }
      forall v | IsMember(a', v, actor) ensures SameWorkspace(a', b', v) {
        assert IsMember(a, v, actor) && v != w;
        forall u ensures SameMember(a', b', v, u) {
          assert SameMember(a, b, v, u);
        }
      }
    }
  }

  /** One call answers alike and leaves the stores in agreement. */
  lemma CallCannotTell(env: Env, a: Db, b: Db, actor: Id, c: Call)
    requires Agree(a, b, actor)
    ensures Answer(env, a, actor, c).1 == Answer(env, b, actor, c).1
    ensures Agree(Answer(env, a, actor, c).0, Answer(env, b, actor, c).0, actor)
  {
    SameReply(env, a, b, actor, c);
    match c {
      case UpdateCall(w, name) => UpdateAgrees(env, a, b, actor, w, name);
      case DeleteCall(w) => DeleteAgrees(a, b, actor, w);
      case _ =>
    }
  }

  /** No sequence of the actor's calls tells the two stores apart. */
  lemma {:induction false} CallsCannotTell(env: Env, a: Db, b: Db, actor: Id, calls: seq<Call>)
    requires Agree(a, b, actor)
    ensures Answers(env, a, actor, calls) == Answers(env, b, actor, calls)
    decreases |calls|
  {
    if calls != [] {
      CallCannotTell(env, a, b, actor, calls[0]);
      CallsCannotTell(env, Answer(env, a, actor, calls[0]).0, Answer(env, b, actor, calls[0]).0, actor, calls[1..]);
    }
  }

  /** A workspace the actor is no member of looks exactly like one that is not there, to any sequence of calls. */
  lemma HiddenLooksAbsent(env: Env, db: Db, actor: Id, w: Id, calls: seq<Call>)
    requires !IsMember(db, w, actor)
    ensures Answers(env, db, actor, calls) == Answers(env, DeleteWorkspace(db, w), actor, calls)
  {
    var without := DeleteWorkspace(db, w);
    forall v ensures IsMember(db, v, actor) <==> IsMember(without, v, actor) {
      assert v == w ==> !IsMember(db, v, actor);
    }
    forall v | IsMember(db, v, actor) ensures SameWorkspace(db, without, v) {
      assert forall u :: SameMember(db, without, v, u);
    }
    CallsCannotTell(env, db, without, actor, calls);
  }
}
