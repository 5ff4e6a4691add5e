/** What holds of identities in every interleaving of the identity machine. */
module IdentityTheorems {
  import opened Prelude
  import opened AuthStore
  import opened IdentityMachine

  /** Once a subject has a user it keeps it, whatever calls run and however they interleave. */
  lemma SubjectKeepsItsUser(s: State, run: seq<Step>, subject: string, u: UserId)
    requires Inv(s) && Legal(s, run) && Names(s.db, subject, u)
    ensures Names(After(s, run).db, subject, u)
  {
    RunInv(s, run);
  }

  /**
   * Every call that succeeded, by whatever path, answered with the user its subject's row names, and that user
   * exists.
   */
  lemma RepliesNameTheRow(s: State, run: seq<Step>, t: nat)
    requires Init(s) && Legal(s, run) && t < |After(s, run).pc|
    requires After(s, run).pc[t].Finished? && After(s, run).pc[t].reply.Ok?
    ensures var s' := After(s, run);
            var u := s'.pc[t].reply.value;
            Names(s'.db, s'.pc[t].subject, u) && u in s'.db.users
  {
    RunInv(s, run);
  }

  /** So two calls for one subject never succeed with different users. */
  lemma SameSubjectSameUser(s: State, run: seq<Step>, t: nat, u: nat)
    requires Init(s) && Legal(s, run) && t < |s.pc| && u < |s.pc|
    requires var s' := After(s, run);
             && |s'.pc| == |s.pc|
             && s'.pc[t].Finished? && s'.pc[u].Finished? && s'.pc[t].reply.Ok? && s'.pc[u].reply.Ok?
             && s'.pc[t].subject == s'.pc[u].subject
    ensures After(s, run).pc[t].reply == After(s, run).pc[u].reply
  {
    RunInv(s, run);
  }

  /**
   * The unique indexes hold throughout: one user per email, one identity per user and provider, one primary per user.
   */
  lemma ConstraintsHold(s: State, run: seq<Step>)
    requires Init(s) && Legal(s, run)
    ensures Constraints(After(s, run).db)
    ensures var db := After(s, run).db;
            && (forall u, v :: u in db.users && v in db.users && u != v ==> db.users[u].email != db.users[v].email)
            && (forall a :: a in db.identities ==> db.identities[a].userId in db.users)
            && (forall a, b ::
                  a in db.identities && b in db.identities && a != b
                  && db.identities[a].userId == db.identities[b].userId ==>
                    && db.identities[a].provider != db.identities[b].provider
                    && !(db.identities[a].isPrimary && db.identities[b].isPrimary))
  {
    RunInv(s, run);
  }
}
