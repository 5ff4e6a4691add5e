/**
 * Whole runs of the account services: any calls, one after another, with fresh ids and tokens and a clock that never
 * goes back.
 */
module AuthRuns {
  import opened Prelude
  import opened AuthStore
  import opened AuthSpec

  /**
   * A call with the environment's part in it: fresh `id` and `raw` token, the password hash, whether the mail went
   * out.
   */
  datatype Call =
    | CallRegister(email: string, password: string, displayName: string, id: UserId, hashed: Option<string>,
        raw: string, sent: bool)
    | CallResend(email: string, raw: string, sent: bool)
    | CallLogin(email: string, password: string, raw: string)
    | CallVerify(token: string, raw: string)
    | CallRefresh(token: string, raw: string)
    | CallLogout(token: string)
    | CallLink(pendingToken: string, password: string, raw: string)
    | CallSetPassword(user: UserId, password: string, hashed: Option<string>)
    | CallUpdateProfile(user: UserId, name: string, avatar: Option<string>, status: Option<string>)
    | CallSync(subject: string, email: string, displayName: string, avatarUrl: string, emailVerified: bool, id: UserId)

  /** What a call did that the run-wide properties speak of. */
  datatype Event =
    | PairIssued(user: UserId)
    | Rotated(user: UserId, hash: string)
    | LoggedOut(user: UserId)
    | ExpiredPresented(user: UserId)
    | VerificationCreated(user: UserId, at: int)

  /** `ids` and `hashes` are those handed out so far, `log` what has happened. */
  datatype World = World(db: Db, now: int, ids: set<UserId>, hashes: set<string>, log: seq<Event>)

  const START := World(EMPTY_DB, 0, {}, {}, [])

  function NewIds(c: Call): set<UserId> {
    if c.CallRegister? || c.CallSync? then {c.id} else {}
  }

  function NewHashes(env: Env, c: Call): set<string> {
    if c.CallLogout? || c.CallSetPassword? || c.CallUpdateProfile? || c.CallSync? then {} else {env.hashToken(c.raw)}
  }

  predicate Allowed(env: Env, w: World, c: Call, now: int) {
    now >= w.now && NewIds(c) !! w.ids && NewHashes(env, c) !! w.hashes
  }

  ghost function Effect(env: Env, db: Db, c: Call, now: int): Db {
    match c
    case CallRegister(email, password, name, id, hashed, raw, sent) =>
      Register(env, db, email, password, name, id, hashed, raw, sent, now).db
    case CallResend(email, raw, sent) => ResendVerification(env, db, email, raw, sent, now).db
    case CallLogin(email, password, raw) => Login(env, db, email, password, raw, now).db
    case CallVerify(token, raw) => VerifyEmail(env, db, token, raw, now).db
    case CallRefresh(token, raw) => Refresh(env, db, token, raw, now).db
    case CallLogout(token) => Logout(env, db, token)
    case CallLink(pending, password, raw) => ConfirmAccountLink(env, db, pending, password, raw, now).db
    case CallSetPassword(u, password, hashed) => SetPassword(db, u, password, hashed).db
    case CallUpdateProfile(u, name, avatar, status) => UpdateProfile(env, db, u, name, avatar, status).db
    case CallSync(subject, email, name, avatar, verified, id) =>
      SyncAuth0User(env, db, subject, email, name, avatar, verified, id).db
  }

  function Issued(reply: Result<Session, AuthError>): seq<Event> {
    if reply.Ok? then [PairIssued(reply.value.user)] else []
  }

  ghost function Events(env: Env, db: Db, c: Call, now: int): seq<Event> {
    match c
    case CallRegister(email, password, name, id, hashed, raw, sent) =>
      var reply := Register(env, db, email, password, name, id, hashed, raw, sent, now).reply;
      if reply.Ok? || reply.error.EmailNotSent? then [VerificationCreated(id, now)] else []
    case CallResend(email, raw, sent) =>
      var owner := FindByEmail(db, env.Normalize(email));
      if env.Normalize(email) != "" && owner.Some? && !db.users[owner.value].emailVerified
          && !CoolingDown(db, owner.value, now)
      then [VerificationCreated(owner.value, now)] else []
    case CallLogin(email, password, raw) => Issued(Login(env, db, email, password, raw, now).reply)
    case CallVerify(token, raw) => Issued(VerifyEmail(env, db, token, raw, now).reply)
    case CallLink(pending, password, raw) => Issued(ConfirmAccountLink(env, db, pending, password, raw, now).reply)
    case CallRefresh(token, raw) =>
      var hash := env.hashToken(token);
      if hash !in db.refresh then []
      else if Refresh(env, db, token, raw, now).reply.Ok? then [Rotated(db.refresh[hash].userId, hash)]
      else [ExpiredPresented(db.refresh[hash].userId)]
    case CallLogout(token) =>
      var hash := env.hashToken(token);
      if hash in db.refresh then [LoggedOut(db.refresh[hash].userId)] else []
    case _ => []
  }

  ghost function After(env: Env, w: World, c: Call, now: int): World {
    World(Effect(env, w.db, c, now), now, w.ids + NewIds(c), w.hashes + NewHashes(env, c),
        w.log + Events(env, w.db, c, now))
  }

  datatype Timed = Timed(call: Call, at: int)

  ghost predicate Legal(env: Env, w: World, run: seq<Timed>)
    decreases |run|
  {
    run == [] || (Allowed(env, w, run[0].call, run[0].at)
        && Legal(env, After(env, w, run[0].call, run[0].at), run[1..]))
  }

  ghost function Run(env: Env, w: World, run: seq<Timed>): World
    decreases |run|
  {
    if run == [] then w else Run(env, After(env, w, run[0].call, run[0].at), run[1..])
  }
}
