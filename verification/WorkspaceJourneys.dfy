/** What a workspace's people can rely on over whole runs: who invites, and how long an invitation is good. */
module WorkspaceJourneys {
  import opened Prelude
  import opened WorkspaceStore
  import opened WorkspaceSpec
  import opened WorkspaceContracts
  import opened WorkspaceRuns

  /** Invitation rows are written for a workspace only at its owner's request, and by its addressee's acceptance. */
  lemma OnlyOwnersInvite(env: Env, s: State, a: Action, now: int, i: Id)
    requires Inv(s) && Enabled(env, s, a) && i in Apply(env, s, a, now).db.invitations
    requires i in s.db.invitations ==> Apply(env, s, a, now).db.invitations[i] != s.db.invitations[i]
    ensures a.DoInvite? || a.DoResend? || a.AcceptTransaction?
    ensures a.DoInvite? || a.DoResend? ==>
              && a.w in s.db.workspaces && a.inviter == s.db.workspaces[a.w].owner
              && Apply(env, s, a, now).db.invitations[i].workspace == a.w
              && Apply(env, s, a, now).db.invitations[i].email == env.lower(env.trim(a.email))
    ensures a.AcceptTransaction? ==>
              && a.thread in s.accepting && s.accepting[a.thread].invitation == i && i in s.db.invitations
              && s.db.users[s.accepting[a.thread].actor].email == s.db.invitations[i].email
  {
    match a {
      case DoInvite(w, inviter, email, found, j, token, sent) =>
        InviteExactly(env, s.db, w, inviter, email, found, j, token, sent, now);
      case DoResend(w, inviter, email, found, j, token, sent) =>
        ResendExactly(env, s.db, w, inviter, email, found, j, token, sent, now);
      case _ =>
    }
  }

  /** While an address has an invitation, and none that is used or past its time, it gets no other. */
  lemma ValidInvitationBlocks(env: Env, s: State, a: Action, now: int, i: Id)
    requires Enabled(env, s, a) && (a.DoInvite? || a.DoResend?)
    requires var email := env.lower(env.trim(a.email));
             && IsFor(s.db, i, a.w, email)
             && forall j :: IsFor(s.db, j, a.w, email) ==>
                  s.db.invitations[j].usedAt.None? && now < s.db.invitations[j].expiresAt
    ensures Apply(env, s, a, now).db == s.db
  {
    match a {
      case DoInvite(w, inviter, email, found, j, token, sent) =>
        assert found.Some? && IsFor(s.db, found.value, w, env.lower(env.trim(email)));
        InviteExactly(env, s.db, w, inviter, email, found, j, token, sent, now);
      case DoResend(w, inviter, email, found, j, token, sent) =>
        assert found.Some? && IsFor(s.db, found.value, w, env.lower(env.trim(email)));
        ResendExactly(env, s.db, w, inviter, email, found, j, token, sent, now);
    }
  }

  predicate IsFor(db: Db, i: Id, w: Id, email: string) {
    i in db.invitations && db.invitations[i].workspace == w && db.invitations[i].email == email
  }

  // ----- tokens stay unique -----

  lemma StepTokens(env: Env, s: State, a: Action, now: int)
    requires Enabled(env, s, a) && UniqueTokens(s.db)
    ensures UniqueTokens(Apply(env, s, a, now).db)
  {
    match a {
      case DoInvite(w, inviter, email, found, j, token, sent) =>
        InviteExactly(env, s.db, w, inviter, email, found, j, token, sent, now);
      case DoResend(w, inviter, email, found, j, token, sent) =>
        ResendExactly(env, s.db, w, inviter, email, found, j, token, sent, now);
      case _ => OtherTokensStay(env, s, a, now);
    }
  }

  lemma OtherTokensStay(env: Env, s: State, a: Action, now: int)
    requires Enabled(env, s, a) && !a.DoInvite? && !a.DoResend?
    ensures var db' := Apply(env, s, a, now).db;
            forall i :: i in db'.invitations ==>
              i in s.db.invitations && db'.invitations[i].token == s.db.invitations[i].token
  {
  }

  lemma {:induction false} RunTokens(env: Env, s: State, run: seq<Step>)
    requires Legal(env, s, run) && UniqueTokens(s.db)
    ensures UniqueTokens(After(env, s, run).db)
    decreases |run|
  {
    if run != [] {
      StepTokens(env, s, run[0].action, run[0].now);
      RunTokens(env, Apply(env, s, run[0].action, run[0].now), run[1..]);
    }
  }

  // ----- an invitation is good for two days -----

  /** The row is there as it was written. */
  predicate Stands(db: Db, i: Id, row: Invitation) {
    i in db.invitations && db.invitations[i] == row
  }

  /** It has been used, or is gone with its workspace. */
  predicate UsedOrGone(db: Db, i: Id) {
    i in db.invitations ==> db.invitations[i].usedAt.Some?
  }

  lemma StepStands(env: Env, s: State, a: Action, now: int, i: Id, row: Invitation)
    requires Inv(s) && Enabled(env, s, a) && Stands(s.db, i, row) && row.usedAt.None? && now < row.expiresAt
    ensures var db' := Apply(env, s, a, now).db;
            Stands(db', i, row) || (UsedOrGone(db', i) && (a.AcceptTransaction? || a.DoDelete?))
  {
    match a {
      case DoInvite(w, inviter, email, found, j, token, sent) =>
        InviteExactly(env, s.db, w, inviter, email, found, j, token, sent, now);
      case DoResend(w, inviter, email, found, j, token, sent) =>
        ResendExactly(env, s.db, w, inviter, email, found, j, token, sent, now);
      case DoDelete(actor, w) => DeleteExactly(s.db, actor, w);
      case _ =>
    }
  }

  lemma StepUsedOrGone(env: Env, s: State, a: Action, now: int, i: Id)
    requires Inv(s) && Enabled(env, s, a) && i in s.ids && UsedOrGone(s.db, i)
    ensures UsedOrGone(Apply(env, s, a, now).db, i) && i in Apply(env, s, a, now).ids
  {
    match a {
      case DoInvite(w, inviter, email, found, j, token, sent) =>
        assert j in NewIds(a);
        InviteExactly(env, s.db, w, inviter, email, found, j, token, sent, now);
      case DoResend(w, inviter, email, found, j, token, sent) =>
        assert j in NewIds(a);
        ResendExactly(env, s.db, w, inviter, email, found, j, token, sent, now);
      case DoDelete(actor, w) => DeleteExactly(s.db, actor, w);
      case _ =>
    }
  }

  predicate Before(run: seq<Step>, t: int) {
    forall k :: 0 <= k < |run| ==> run[k].now < t
  }

  /** Until its time is over an invitation stays as it was written, unless it is used or its workspace deleted. */
  lemma {:induction false} RunStands(env: Env, s: State, run: seq<Step>, i: Id, row: Invitation)
    requires Inv(s) && Legal(env, s, run) && row.usedAt.None? && i in s.ids
    requires Stands(s.db, i, row) || UsedOrGone(s.db, i)
    requires Before(run, row.expiresAt)
    ensures Stands(After(env, s, run).db, i, row) || UsedOrGone(After(env, s, run).db, i)
    decreases |run|
  {
    if run != [] {
      var a, now := run[0].action, run[0].now;
      if UsedOrGone(s.db, i) {
        StepUsedOrGone(env, s, a, now, i);
      } else {
        StepStands(env, s, a, now, i, row);
      }
      StepInv(env, s, a, now);
      RunStands(env, Apply(env, s, a, now), run[1..], i, row);
    }
  }

  /**
   * An invitation sent at `t` is accepted from its addressee, not yet a member, at every time up to two days later,
   * and refused as expired after that, whatever else has happened meanwhile, short of its use or the deletion of its
   * workspace.
   */
  lemma InvitationWorksTwoDays(env: Env, before: seq<Step>, s0: State, a: Action, t: int, run: seq<Step>, actor: Id,
                               now: int)
    requires Init(s0) && UniqueTokens(s0.db) && Legal(env, s0, before) && a.DoInvite?
    requires Enabled(env, After(env, s0, before), a)
    requires var s := After(env, s0, before);
             Invite(env, s.db, a.w, a.inviter, a.email, a.found, a.i, a.token, a.sent, t).reply.Ok?
    requires Legal(env, Apply(env, After(env, s0, before), a, t), run) && Before(run, t + TWO_DAYS)
    requires a.token != "" && actor != 0
    ensures var s1 := Apply(env, After(env, s0, before), a, t);
            var db := After(env, s1, run).db;
            a.i in db.invitations && db.invitations[a.i].usedAt.None? ==>
              && (now > t + TWO_DAYS ==> AcceptInvitation(db, actor, a.token, now).reply == Err(Expired))
              && (now <= t + TWO_DAYS && Addressed(env, db, a, actor) ==>
                    AcceptInvitation(db, actor, a.token, now).reply == Ok(a.w))
  {
    var s := After(env, s0, before);
    InitInv(s0);
    RunInv(env, s0, before);
    RunTokens(env, s0, before);
    var s1 := Apply(env, s, a, t);
    StepInv(env, s, a, t);
    StepTokens(env, s, a, t);
    InviteExactly(env, s.db, a.w, a.inviter, a.email, a.found, a.i, a.token, a.sent, t);
    var row := Invitation(a.w, env.lower(env.trim(a.email)), a.token, a.inviter, t + TWO_DAYS, None);
    assert a.i in NewIds(a);
    RunStands(env, s1, run, a.i, row);
    RunTokens(env, s1, run);
    RunInv(env, s1, run);
    var db := After(env, s1, run).db;
    if a.i in db.invitations && db.invitations[a.i].usedAt.None? {
      StandingIsAccepted(db, a.i, row, actor, now);
    }
  }

  predicate Addressed(env: Env, db: Db, a: Action, actor: Id)
    requires a.DoInvite?
  {
    && actor in db.users && db.users[actor].email == env.lower(env.trim(a.email))
    && (a.w, actor) !in db.members
  }

  lemma StandingIsAccepted(db: Db, i: Id, row: Invitation, actor: Id, now: int)
    requires UniqueTokens(db) && UsedAreMembers(db) && Stands(db, i, row) && row.usedAt.None?
    requires actor != 0 && row.token != ""
    ensures now > row.expiresAt ==> AcceptInvitation(db, actor, row.token, now).reply == Err(Expired)
    ensures now <= row.expiresAt && actor in db.users && db.users[actor].email == row.email
            && (row.workspace, actor) !in db.members ==>
              AcceptInvitation(db, actor, row.token, now).reply == Ok(row.workspace)
  {
    AcceptExactly(db, actor, row.token, now);
    var outcome := AcceptInvitation(db, actor, row.token, now);
    assert AcceptOf(db, i, actor, now, outcome.db, outcome.reply);
    if now <= row.expiresAt && actor in db.users && db.users[actor].email == row.email
       && (row.workspace, actor) !in db.members {
      assert Invites(db, i, row.token, actor, now);
    }
  }

  /** Every step but an accept's does to the tables what its call's contract says, for some answer it allows. */
  ghost predicate KeepsContract(env: Env, db: Db, a: Action, now: int, db': Db)
    requires a.DoInvite? || a.DoResend? ==> a.found.Some? ==> a.found.value in db.invitations
  {
    match a
    case DoCreate(owner, name, w, random) => exists r :: CreateAnswers(env, db, owner, name, w, random, now, db', r)
    case DoUpdate(actor, w, name) => exists r :: UpdateAnswers(env, db, actor, w, name, db', r)
    case DoDelete(actor, w) => exists r :: DeleteAnswers(db, actor, w, db', r)
    case DoInvite(w, inviter, email, found, i, token, sent) =>
      exists r :: InviteAnswers(env, db, w, inviter, email, found, i, token, sent, now, db', r)
    case DoResend(w, inviter, email, found, i, token, sent) =>
      exists r :: ResendAnswers(env, db, w, inviter, email, found, i, token, sent, now, db', r)
    case AcceptReads(_, _, _) => db' == db
    case AcceptTransaction(_) => true
  }

  lemma EveryStepKeepsItsContract(env: Env, s: State, a: Action, now: int)
    requires Enabled(env, s, a)
    ensures KeepsContract(env, s.db, a, now, Apply(env, s, a, now).db)
  {
    match a {
      case DoCreate(owner, name, w, random) => CreateExactly(env, s.db, owner, name, w, random, now);
      case DoUpdate(actor, w, name) => UpdateExactly(env, s.db, actor, w, name);
      case DoDelete(actor, w) => DeleteExactly(s.db, actor, w);
      case DoInvite(w, inviter, email, found, i, token, sent) =>
        InviteExactly(env, s.db, w, inviter, email, found, i, token, sent, now);
      case DoResend(w, inviter, email, found, i, token, sent) =>
        ResendExactly(env, s.db, w, inviter, email, found, i, token, sent, now);
      case _ =>
    }
  }

  /** The two steps of an accept, with nothing between them, are the whole call. */
  lemma AcceptInTwoSteps(env: Env, s: State, t: nat, actor: Id, token: string, now: int)
    requires UniqueTokens(s.db) && t !in s.accepting
    ensures var s1 := Apply(env, s, AcceptReads(t, actor, token), now);
            var whole := AcceptInvitation(s.db, actor, token, now);
            && AcceptAnswers(s.db, actor, token, now, whole.db, whole.reply)
            && (t in s1.accepting ==> Apply(env, s1, AcceptTransaction(t), now).db == whole.db)
            && (whole.reply.Ok? ==> t in s1.accepting)
  {
    AcceptExactly(s.db, actor, token, now);
  }
}
