/** What holds after every run of account calls. */
module AuthTheorems {
  import opened Prelude
  import opened AuthStore
  import opened AuthSpec
  import opened AuthRuns
  import opened AuthChanges

  /** Everything the log says, and the state it left. */
  ghost predicate Inv(w: World) {
    && KeptWorld(w)
    && Logged(w)
    && Spaced(w.log)
    && UsedOnce(w.log)
  }

  ghost predicate KeptWorld(w: World) {
    Kept(w.db, w.ids, w.hashes)
  }

  ghost predicate Logged(w: World) {
    forall i :: 0 <= i < |w.log| ==> EntryHolds(w, w.log[i])
  }

  /**
   * A rotated token is gone for good; a user sent a verification mail is verified, deleted, or still holds that token
   * or a later one.
   */
  ghost predicate EntryHolds(w: World, e: Event) {
    match e
    case Rotated(u, hash) => hash in w.hashes && hash !in w.db.refresh
    case VerificationCreated(u, t) => u in w.ids && t <= w.now && Guarded(w.db, u, t)
    case _ => true
  }

  predicate Spaced(log: seq<Event>) {
    forall i, j :: 0 <= i < j < |log| && log[i].VerificationCreated? && log[j].VerificationCreated? ==>
      log[i].user == log[j].user ==> log[j].at - log[i].at >= RESEND_COOLDOWN
  }

  predicate UsedOnce(log: seq<Event>) {
    forall i, j :: 0 <= i < j < |log| && log[i].Rotated? && log[j].Rotated? ==> log[i].hash != log[j].hash
  }

  lemma OldEntriesHold(env: Env, w: World, c: Call, now: int, e: Event)
    requires Inv(w) && Allowed(env, w, c, now) && EntryHolds(w, e)
    ensures EntryHolds(After(env, w, c, now), e)
  {
    var chs := CallChanges(env, w, c, now);
    match e {
      case Rotated(u, hash) => ChangesKeepGone(w.db, GrantOf(env, c, now), chs, hash);
      case VerificationCreated(u, t) => ChangesKeepGuard(w.db, GrantOf(env, c, now), chs, u, t);
      case _ =>
    }
  }

  lemma NewEntryHolds(env: Env, w: World, c: Call, now: int, e: Event)
    requires Inv(w) && Allowed(env, w, c, now) && e in Events(env, w.db, c, now)
    ensures EntryHolds(After(env, w, c, now), e)
    ensures Events(env, w.db, c, now) == [e]
  {
    var w' := After(env, w, c, now);
    match c {
      case CallRegister(email, password, name, id, hashed, raw, sent) =>
        if sent {
          assert env.hashToken(raw) in VerificationTokensOf(w'.db, id);
        }
      case CallResend(email, raw, sent) =>
        assert env.hashToken(raw) in VerificationTokensOf(w'.db, e.user);
      case _ =>
    }
  }

  /** A new verification token comes at least the cooldown after every earlier one of its user. */
  lemma NewTokenIsSpaced(env: Env, w: World, c: Call, now: int, u: UserId, i: nat)
    requires Inv(w) && Allowed(env, w, c, now) && VerificationCreated(u, now) in Events(env, w.db, c, now)
    requires i < |w.log| && w.log[i].VerificationCreated? && w.log[i].user == u
    ensures now - w.log[i].at >= RESEND_COOLDOWN
  {
    assert EntryHolds(w, w.log[i]);
  }

  lemma NewRotationIsFirst(env: Env, w: World, c: Call, now: int, u: UserId, hash: string, i: nat)
    requires Inv(w) && Allowed(env, w, c, now) && Rotated(u, hash) in Events(env, w.db, c, now)
    requires i < |w.log| && w.log[i].Rotated?
    ensures w.log[i].hash != hash
  {
    assert EntryHolds(w, w.log[i]);
  }

  lemma StepInv(env: Env, w: World, c: Call, now: int)
    requires Inv(w) && Allowed(env, w, c, now)
    ensures Inv(After(env, w, c, now))
  {
    var w' := After(env, w, c, now);
    var chs := CallChanges(env, w, c, now);
    ChangesKeep(w.db, w'.ids, w'.hashes, GrantOf(env, c, now), chs);
    forall i | 0 <= i < |w'.log| ensures EntryHolds(w', w'.log[i]) {
      if i < |w.log| {
        OldEntriesHold(env, w, c, now, w.log[i]);
      } else {
        NewEntryHolds(env, w, c, now, w'.log[i]);
      }
    }
    StepSpaced(env, w, c, now);
    StepUsedOnce(env, w, c, now);
  }

  lemma StepSpaced(env: Env, w: World, c: Call, now: int)
    requires Inv(w) && Allowed(env, w, c, now)
    ensures Spaced(After(env, w, c, now).log)
  {
    var log' := After(env, w, c, now).log;
    forall i, j | 0 <= i < j < |log'| && log'[i].VerificationCreated? && log'[j].VerificationCreated?
          && log'[i].user == log'[j].user
      ensures log'[j].at - log'[i].at >= RESEND_COOLDOWN
    {
      if j >= |w.log| {
        NewEntryHolds(env, w, c, now, log'[j]);
        CreatedNow(env, w.db, c, now, log'[j]);
        NewTokenIsSpaced(env, w, c, now, log'[j].user, i);
      }
    }
  }

  lemma CreatedNow(env: Env, db: Db, c: Call, now: int, e: Event)
    requires e in Events(env, db, c, now) && e.VerificationCreated?
    ensures e.at == now
  {
  }

  lemma StepUsedOnce(env: Env, w: World, c: Call, now: int)
    requires Inv(w) && Allowed(env, w, c, now)
    ensures UsedOnce(After(env, w, c, now).log)
  {
    var log' := After(env, w, c, now).log;
    forall i, j | 0 <= i < j < |log'| && log'[i].Rotated? && log'[j].Rotated? ensures log'[i].hash != log'[j].hash {
      if j >= |w.log| {
        NewEntryHolds(env, w, c, now, log'[j]);
        NewRotationIsFirst(env, w, c, now, log'[j].user, log'[j].hash, i);
      }
    }
  }

  lemma {:induction false} RunInv(env: Env, w: World, run: seq<Timed>)
    requires Inv(w) && Legal(env, w, run)
    ensures Inv(Run(env, w, run))
    decreases |run|
  {
    if run != [] {
      StepInv(env, w, run[0].call, run[0].at);
      RunInv(env, After(env, w, run[0].call, run[0].at), run[1..]);
    }
  }

  // ----- main results -----

  /** A refresh token is rotated at most once in any run, and once rotated it never works again. */
  lemma RefreshTokensWorkOnce(env: Env, run: seq<Timed>, token: string, raw: string, now: int)
    requires Legal(env, START, run)
    ensures var w := Run(env, START, run);
            && UsedOnce(w.log)
            && ((exists u :: Rotated(u, env.hashToken(token)) in w.log)
                  ==> Refresh(env, w.db, token, raw, now).reply.Err?)
  {
    RunInv(env, START, run);
    var w := Run(env, START, run);
    if u :| Rotated(u, env.hashToken(token)) in w.log {
      var i :| 0 <= i < |w.log| && w.log[i] == Rotated(u, env.hashToken(token));
      assert EntryHolds(w, w.log[i]);
    }
  }

  lemma {:induction false} SpentForGood(env: Env, w: World, run: seq<Timed>, hash: string)
    requires Inv(w) && Legal(env, w, run) && hash in w.hashes && hash !in w.db.verification
    ensures hash !in Run(env, w, run).db.verification
    decreases |run|
  {
    if run != [] {
      var c, now := run[0].call, run[0].at;
      var chs := CallChanges(env, w, c, now);
      ChangesKeepSpent(w.db, GrantOf(env, c, now), chs, hash);
      StepInv(env, w, c, now);
      SpentForGood(env, After(env, w, c, now), run[1..], hash);
    }
  }

  lemma VerifySpends(env: Env, w: World, token: string, raw: string, now: int)
    requires SoundWorld(w) && Allowed(env, w, CallVerify(token, raw), now)
    requires VerifyEmail(env, w.db, token, raw, now).reply.Ok?
    ensures var w' := After(env, w, CallVerify(token, raw), now);
            env.hashToken(token) in w'.hashes && env.hashToken(token) !in w'.db.verification
  {
  }

  /** A verification token works once: after it has verified its user it is refused for ever after. */
  lemma VerificationTokensWorkOnce(env: Env, run: seq<Timed>, token: string, raw: string, now: int, more: seq<Timed>,
      raw': string, later: int)
    requires Legal(env, START, run) && Allowed(env, Run(env, START, run), CallVerify(token, raw), now)
    requires VerifyEmail(env, Run(env, START, run).db, token, raw, now).reply.Ok?
    requires Legal(env, After(env, Run(env, START, run), CallVerify(token, raw), now), more)
    ensures var w := Run(env, After(env, Run(env, START, run), CallVerify(token, raw), now), more);
            VerifyEmail(env, w.db, token, raw', later).reply == Err(InvalidVerificationToken)
  {
    var w := Run(env, START, run);
    RunInv(env, START, run);
    StepInv(env, w, CallVerify(token, raw), now);
    VerifySpends(env, w, token, raw, now);
    SpentForGood(env, After(env, w, CallVerify(token, raw), now), more, env.hashToken(token));
  }

  /** Every stored refresh token belongs to an existing user whose email is verified. */
  lemma SessionsBelongToVerifiedUsers(env: Env, run: seq<Timed>, hash: string)
    requires Legal(env, START, run) && hash in Run(env, START, run).db.refresh
    ensures var db := Run(env, START, run).db;
            db.refresh[hash].userId in db.users && db.users[db.refresh[hash].userId].emailVerified
  {
    RunInv(env, START, run);
  }

  /** No user ever has two verification tokens. */
  lemma AtMostOneVerificationToken(env: Env, run: seq<Timed>, u: UserId)
    requires Legal(env, START, run)
    ensures |VerificationTokensOf(Run(env, START, run).db, u)| <= 1
  {
    RunInv(env, START, run);
    var db := Run(env, START, run).db;
    var tokens := VerificationTokensOf(db, u);
    if tokens != {} {
      var h := SomeMember(tokens);
      assert tokens == {h};
    }
  }

  function CreationTimes(log: seq<Event>, u: UserId): seq<int> {
    if log == [] then []
    else
      var last := log[|log| - 1];
      CreationTimes(log[..|log| - 1], u) + if last.VerificationCreated? && last.user == u then [last.at] else []
  }

  predicate Apart(times: seq<int>, gap: int) {
    forall i :: 0 < i < |times| ==> times[i] - times[i - 1] >= gap
  }

  lemma {:induction false} TimesAreLogged(log: seq<Event>, u: UserId, t: int)
    requires t in CreationTimes(log, u)
    ensures VerificationCreated(u, t) in log
  {
    var front := log[..|log| - 1];
    if t in CreationTimes(front, u) {
      TimesAreLogged(front, u, t);
    }
    assert log == front + [log[|log| - 1]];
  }

  lemma {:induction false} SpacedTimesAreApart(log: seq<Event>, u: UserId)
    requires Spaced(log)
    ensures Apart(CreationTimes(log, u), RESEND_COOLDOWN)
  {
    if log != [] {
      var front, last := log[..|log| - 1], log[|log| - 1];
      var times := CreationTimes(front, u);
      SpacedTimesAreApart(front, u);
      if last.VerificationCreated? && last.user == u && times != [] {
        TimesAreLogged(front, u, times[|times| - 1]);
        var i :| 0 <= i < |front| && front[i] == VerificationCreated(u, times[|times| - 1]);
        assert log[i] == front[i];
      }
    }
  }

  /** The times that fall in the window of length `span` from `start` on. */
  function Within(times: seq<int>, start: int, span: nat): seq<int> {
    if times == [] then []
    else
      var last := times[|times| - 1];
      Within(times[..|times| - 1], start, span) + if start <= last <= start + span then [last] else []
  }

  lemma {:induction false} WithinIsApart(times: seq<int>, gap: nat, start: int, span: nat)
    requires Apart(times, gap)
    ensures var some := Within(times, start, span);
            && Apart(some, gap)
            && (forall i :: 0 <= i < |some| ==> start <= some[i] <= start + span && some[i] <= times[|times| - 1])
            && (some != [] ==> times != [])
  {
    if times != [] {
      WithinIsApart(times[..|times| - 1], gap, start, span);
    }
  }

  /** Of times that are `gap` apart, `n` in a row span at least `n - 1` gaps. */
  lemma {:induction false} RowIsLong(times: seq<int>, gap: int, n: nat)
    requires Apart(times, gap) && 1 <= n <= |times|
    ensures times[n - 1] - times[0] >= (n - 1) * gap
  {
    if n > 1 {
      RowIsLong(times, gap, n - 1);
      assert (n - 1) * gap == (n - 2) * gap + gap;
    }
  }

  /** In any window of length `span` a user is sent at most floor(span / one minute) + 1 verification tokens. */
  lemma VerificationRate(env: Env, run: seq<Timed>, u: UserId, start: int, span: nat)
    requires Legal(env, START, run)
    ensures |Within(CreationTimes(Run(env, START, run).log, u), start, span)| <= span / RESEND_COOLDOWN + 1
  {
    RunInv(env, START, run);
    var times := CreationTimes(Run(env, START, run).log, u);
    SpacedTimesAreApart(Run(env, START, run).log, u);
    WithinIsApart(times, RESEND_COOLDOWN, start, span);
    var some := Within(times, start, span);
    if some != [] {
      RowIsLong(some, RESEND_COOLDOWN, |some|);
    }
  }

  // ----- conservation of sessions -----

  function Count(log: seq<Event>, e: Event): int {
    multiset(log)[e]
  }

  /** Pairs issued to the user, less logout hits, less expired presentations. */
  function Balance(log: seq<Event>, u: UserId): int {
    Count(log, PairIssued(u)) - Count(log, LoggedOut(u)) - Count(log, ExpiredPresented(u))
  }

  lemma OpenCounts(db: Db, hash: string, session: RefreshToken, u: UserId)
    requires hash !in db.refresh
    ensures |RefreshTokensOf(db.(refresh := db.refresh[hash := session]), u)|
         == |RefreshTokensOf(db, u)| + if session.userId == u then 1 else 0
  {
    var db' := db.(refresh := db.refresh[hash := session]);
    if session.userId == u {
      assert RefreshTokensOf(db', u) == RefreshTokensOf(db, u) + {hash};
    } else {
      assert RefreshTokensOf(db', u) == RefreshTokensOf(db, u);
    }
  }

  lemma CloseCounts(db: Db, hash: string, u: UserId)
    ensures |RefreshTokensOf(db.(refresh := db.refresh - {hash}), u)|
         == |RefreshTokensOf(db, u)| - if hash in db.refresh && db.refresh[hash].userId == u then 1 else 0
  {
    assert RefreshTokensOf(db.(refresh := db.refresh - {hash}), u) == RefreshTokensOf(db, u) - {hash};
  }

  /** Only the refresh table matters to the count. */
  lemma SameTableCounts(db: Db, db': Db, u: UserId)
    requires db'.refresh == db.refresh
    ensures RefreshTokensOf(db', u) == RefreshTokensOf(db, u)
  {
  }

  /** A successful refresh keeps the number of sessions its user has. */
  lemma RefreshKeepsCount(env: Env, db: Db, token: string, raw: string, now: int, u: UserId)
    requires env.hashToken(raw) !in db.refresh && Refresh(env, db, token, raw, now).reply.Ok?
    ensures |RefreshTokensOf(Refresh(env, db, token, raw, now).db, u)| == |RefreshTokensOf(db, u)|
  {
    var hash := env.hashToken(token);
    var closed := db.(refresh := db.refresh - {hash});
    CloseCounts(db, hash, u);
    OpenCounts(closed, env.hashToken(raw), RefreshToken(db.refresh[hash].userId, now + env.refreshExpiry), u);
  }

  /** Either nothing was issued and no session stored, or one pair was and its session added. */
  ghost predicate IssuedOne(env: Env, db: Db, db': Db, raw: string, now: int, events: seq<Event>) {
    || (events == [] && db'.refresh == db.refresh)
    || (|events| == 1 && events[0].PairIssued?
        && db'.refresh == db.refresh[env.hashToken(raw) := RefreshToken(events[0].user, now + env.refreshExpiry)])
  }

  /** Login, verify and link either leave the session table alone or add the one session they answer with. */
  lemma SessionCallTable(env: Env, db: Db, c: Call, now: int)
    requires c.CallLogin? || c.CallVerify? || c.CallLink?
    ensures IssuedOne(env, db, Effect(env, db, c, now), c.raw, now, Events(env, db, c, now))
  {
    match c {
      case CallLogin(email, password, raw) => LoginTable(env, db, email, password, raw, now);
      case CallVerify(token, raw) => VerifyTable(env, db, token, raw, now);
      case CallLink(pending, password, raw) => LinkTable(env, db, pending, password, raw, now);
    }
  }

  lemma LoginTable(env: Env, db: Db, email: string, password: string, raw: string, now: int)
    ensures var outcome := Login(env, db, email, password, raw, now);
            IssuedOne(env, db, outcome.db, raw, now, Issued(outcome.reply))
  {
  }

  lemma VerifyTable(env: Env, db: Db, token: string, raw: string, now: int)
    ensures var outcome := VerifyEmail(env, db, token, raw, now);
            IssuedOne(env, db, outcome.db, raw, now, Issued(outcome.reply))
  {
  }

  lemma LinkTable(env: Env, db: Db, pending: string, password: string, raw: string, now: int)
    ensures var outcome := ConfirmAccountLink(env, db, pending, password, raw, now);
            IssuedOne(env, db, outcome.db, raw, now, Issued(outcome.reply))
  {
  }

  lemma SessionCallCounts(env: Env, w: World, c: Call, now: int, u: UserId)
    requires KeptWorld(w) && Allowed(env, w, c, now) && (c.CallLogin? || c.CallVerify? || c.CallLink?)
    ensures |RefreshTokensOf(After(env, w, c, now).db, u)|
        == |RefreshTokensOf(w.db, u)| + Balance(Events(env, w.db, c, now), u)
  {
    var db' := Effect(env, w.db, c, now);
    var events := Events(env, w.db, c, now);
    SessionCallTable(env, w.db, c, now);
    if events == [] {
      SameTableCounts(w.db, db', u);
    } else {
      var session := RefreshToken(events[0].user, now + env.refreshExpiry);
      NotYetStored(env, w, c, now);
      OpenCounts(w.db, env.hashToken(c.raw), session, u);
      SameTableCounts(w.db.(refresh := w.db.refresh[env.hashToken(c.raw) := session]), db', u);
      assert events == [PairIssued(events[0].user)];
    }
  }

  lemma NotYetStored(env: Env, w: World, c: Call, now: int)
    requires KeptWorld(w) && Allowed(env, w, c, now)
    ensures forall h :: h in NewHashes(env, c) ==> h !in w.db.refresh && h !in w.db.verification
  {
  }

  lemma LogoutCounts(env: Env, db: Db, token: string, now: int, u: UserId)
    ensures |RefreshTokensOf(Logout(env, db, token), u)|
         == |RefreshTokensOf(db, u)| + Balance(Events(env, db, CallLogout(token), now), u)
  {
    CloseCounts(db, env.hashToken(token), u);
  }

  /** A token that is unknown or expired: nothing is issued, an expired one goes. */
  lemma RefusedRefreshCounts(env: Env, db: Db, token: string, raw: string, now: int, u: UserId)
    requires Refresh(env, db, token, raw, now).reply.Err?
    ensures |RefreshTokensOf(Refresh(env, db, token, raw, now).db, u)|
         == |RefreshTokensOf(db, u)| + Balance(Events(env, db, CallRefresh(token, raw), now), u)
  {
    CloseCounts(db, env.hashToken(token), u);
  }

  lemma RotationCounts(env: Env, db: Db, token: string, raw: string, now: int, u: UserId)
    requires env.hashToken(raw) !in db.refresh && Refresh(env, db, token, raw, now).reply.Ok?
    ensures |RefreshTokensOf(Refresh(env, db, token, raw, now).db, u)|
         == |RefreshTokensOf(db, u)| + Balance(Events(env, db, CallRefresh(token, raw), now), u)
  {
    RefreshKeepsCount(env, db, token, raw, now, u);
  }

  lemma RefreshCallCounts(env: Env, w: World, c: Call, now: int, u: UserId)
    requires KeptWorld(w) && Allowed(env, w, c, now) && (c.CallRefresh? || c.CallLogout?)
    ensures |RefreshTokensOf(After(env, w, c, now).db, u)|
        == |RefreshTokensOf(w.db, u)| + Balance(Events(env, w.db, c, now), u)
  {
    match c {
      case CallLogout(token) => LogoutCounts(env, w.db, token, now, u);
      case CallRefresh(token, raw) =>
        if Refresh(env, w.db, token, raw, now).reply.Ok? {
          NotYetStored(env, w, c, now);
          RotationCounts(env, w.db, token, raw, now, u);
        } else {
          RefusedRefreshCounts(env, w.db, token, raw, now, u);
        }
    }
  }

  predicate IssuesNothing(c: Call) {
    c.CallRegister? || c.CallResend? || c.CallSetPassword? || c.CallUpdateProfile? || c.CallSync?
  }

  lemma OtherCallTable(env: Env, w: World, c: Call, now: int)
    requires KeptWorld(w) && Allowed(env, w, c, now) && IssuesNothing(c)
    ensures Effect(env, w.db, c, now).refresh == w.db.refresh
  {
    if c.CallRegister? {
      var reply := Register(env, w.db, c.email, c.password, c.displayName, c.id, c.hashed, c.raw, c.sent, now).reply;
      if reply == Err(EmailNotSent) {
        RollbackRestores(env, w, c, now);
      }
    }
  }

  lemma OtherCallCounts(env: Env, w: World, c: Call, now: int, u: UserId)
    requires KeptWorld(w) && Allowed(env, w, c, now) && IssuesNothing(c)
    ensures |RefreshTokensOf(After(env, w, c, now).db, u)|
        == |RefreshTokensOf(w.db, u)| + Balance(Events(env, w.db, c, now), u)
  {
    OtherCallTable(env, w, c, now);
    SameTableCounts(w.db, Effect(env, w.db, c, now), u);
    OtherCallEvents(env, w.db, c, now, u);
  }

  lemma OtherCallEvents(env: Env, db: Db, c: Call, now: int, u: UserId)
    requires IssuesNothing(c)
    ensures Balance(Events(env, db, c, now), u) == 0
  {
  }

  lemma {:induction false} RunBalances(env: Env, w: World, run: seq<Timed>, u: UserId)
    requires Inv(w) && Legal(env, w, run) && |RefreshTokensOf(w.db, u)| == Balance(w.log, u)
    ensures var w' := Run(env, w, run); |RefreshTokensOf(w'.db, u)| == Balance(w'.log, u)
    decreases |run|
  {
    if run != [] {
      var c, now := run[0].call, run[0].at;
      if c.CallLogin? || c.CallVerify? || c.CallLink? {
        SessionCallCounts(env, w, c, now, u);
      } else if c.CallRefresh? || c.CallLogout? {
        RefreshCallCounts(env, w, c, now, u);
      } else {
        OtherCallCounts(env, w, c, now, u);
      }
      assert multiset(w.log + Events(env, w.db, c, now)) == multiset(w.log) + multiset(Events(env, w.db, c, now));
      StepInv(env, w, c, now);
      RunBalances(env, After(env, w, c, now), run[1..], u);
    }
  }

  /**
   * A user's stored sessions are the pairs issued by login, verify and link, less logout hits and expired
   * presentations.
   */
  lemma SessionsAreConserved(env: Env, run: seq<Timed>, u: UserId)
    requires Legal(env, START, run)
    ensures var w := Run(env, START, run);
            |RefreshTokensOf(w.db, u)|
              == Count(w.log, PairIssued(u)) - Count(w.log, LoggedOut(u)) - Count(w.log, ExpiredPresented(u))
  {
    assert RefreshTokensOf(START.db, u) == {};
    RunBalances(env, START, run, u);
  }

  /** Verification is never taken back: a verified user stays stored and verified through any further calls. */
  lemma {:induction false} VerifiedForGood(env: Env, w: World, run: seq<Timed>, u: UserId)
    requires Inv(w) && Legal(env, w, run) && u in w.db.users && w.db.users[u].emailVerified
    ensures u in Run(env, w, run).db.users && Run(env, w, run).db.users[u].emailVerified
    decreases |run|
  {
    if run != [] {
      var c, now := run[0].call, run[0].at;
      var chs := CallChanges(env, w, c, now);
      ChangesKeepVerified(w.db, GrantOf(env, c, now), chs, u);
      StepInv(env, w, c, now);
      VerifiedForGood(env, After(env, w, c, now), run[1..], u);
    }
  }
}
