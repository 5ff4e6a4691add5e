/** What each account operation does to the tables and answers, as functions. */
module AuthSpec {
  import opened Prelude
  import opened AuthStore

  const MINUTE := 60_000_000_000
  const HOUR := 60 * MINUTE
  const RESEND_COOLDOWN := MINUTE
  const VERIFICATION_EXPIRY := 24 * HOUR

  datatype LinkClaims = LinkClaims(subject: string, email: string)

  /**
   * Library functions: trimming and case mapping, token hashing, password comparison, whether a text is an http or
   * https URL, and the reading of a pending-link token at a given time (None when its signature or issuer is wrong or
   * it has expired). Times and durations are nanoseconds.
   */
  datatype Env = Env(
    trim: string -> string,
    lower: string -> string,
    upper: string -> string,
    hashToken: string -> string,
    passwordMatches: (string, string) -> bool,
    linkClaims: (string, int) -> Option<LinkClaims>,
    isWebUrl: string -> bool,
    accessExpiry: int,
    refreshExpiry: int)
  {
    function Normalize(email: string): string { lower(trim(email)) }
  }

  datatype AuthError =
    | EmailRequired | PasswordTooShort | EmailTaken | HashFailed | EmailNotSent
    | RateLimited
    | InvalidCredentials | NoPasswordSet | EmailNotVerified
    | InvalidVerificationToken | InvalidPendingToken | LinkConflict | IdentityRefused
    | PasswordAlreadySet | UserNotFound | InvalidInput
    | SubjectRequired | InvalidSubject | ProviderEmailNotVerified | LinkRequired | Refused

  datatype AccessToken = AccessToken(subject: UserId, issuedAt: int, expiresAt: int)

  datatype TokenPair = TokenPair(access: AccessToken, refresh: string)

  datatype Session = Session(user: UserId, pair: TokenPair)

  datatype Outcome<T> = Outcome(db: Db, reply: Result<T, AuthError>)

  function IssueTokenPair(env: Env, db: Db, u: UserId, raw: string, now: int): (Db, TokenPair) {
    (db.(refresh := db.refresh[env.hashToken(raw) := RefreshToken(u, now + env.refreshExpiry)]),
     TokenPair(AccessToken(u, now, now + env.accessExpiry), raw))
  }

  function StartSession(env: Env, db: Db, u: UserId, raw: string, now: int): Outcome<Session> {
    var (db', pair) := IssueTokenPair(env, db, u, raw, now);
    Outcome(db', Ok(Session(u, pair)))
  }

  /** Replaces whatever verification token the user had. */
  function SendVerification(env: Env, db: Db, u: UserId, raw: string, now: int): Db {
    var cleared := DropVerification(db, u);
    var token := VerificationToken(u, now + VERIFICATION_EXPIRY, now);
    cleared.(verification := cleared.verification[env.hashToken(raw) := token])
  }

  /** `hashed` is the password hash, `raw` the random token, `sent` whether the mail went out. */
  ghost function Register(env: Env, db: Db, email: string, password: string, displayName: string,
                          id: UserId, hashed: Option<string>, raw: string, sent: bool, now: int): Outcome<UserId> {
    var email := env.Normalize(email);
    var name := env.trim(displayName);
    if email == "" then Outcome(db, Err(EmailRequired))
    else if ByteLength(password) < 8 then Outcome(db, Err(PasswordTooShort))
    else if FindByEmail(db, email).Some? then Outcome(db, Err(EmailTaken))
    else if hashed.None? then Outcome(db, Err(HashFailed))
    else
      var user := User(email, if name == "" then email else name, "", "", hashed, false);
      var db' := SendVerification(env, db.(users := db.users[id := user]), id, raw, now);
      if sent then Outcome(db', Ok(id)) else Outcome(DeleteUser(db', id), Err(EmailNotSent))
  }

  /** Is some token of the user younger than the cooldown? (The latest is, exactly when any is.) */
  ghost predicate CoolingDown(db: Db, u: UserId, now: int) {
    exists h :: h in VerificationTokensOf(db, u) && now - db.verification[h].createdAt < RESEND_COOLDOWN
  }

  ghost function ResendVerification(env: Env, db: Db, email: string, raw: string, sent: bool, now: int): Outcome<()> {
    var email := env.Normalize(email);
    var owner := FindByEmail(db, email);
    if email == "" then Outcome(db, Err(EmailRequired))
    else if owner.None? || db.users[owner.value].emailVerified then Outcome(db, Ok(()))
    else if CoolingDown(db, owner.value, now) then Outcome(db, Err(RateLimited))
    else Outcome(SendVerification(env, db, owner.value, raw, now), if sent then Ok(()) else Err(EmailNotSent))
  }

  ghost function Login(env: Env, db: Db, email: string, password: string, raw: string, now: int): Outcome<Session> {
    var owner := FindByEmail(db, env.Normalize(email));
    if owner.None? then Outcome(db, Err(InvalidCredentials))
    else
      var user := db.users[owner.value];
      if user.passwordHash.None? then Outcome(db, Err(NoPasswordSet))
      else if !env.passwordMatches(user.passwordHash.value, password) then Outcome(db, Err(InvalidCredentials))
      else if !user.emailVerified then Outcome(db, Err(EmailNotVerified))
      else StartSession(env, db, owner.value, raw, now)
  }

  function Verified(db: Db, u: UserId): Db
    requires u in db.users
  {
    db.(users := db.users[u := db.users[u].(emailVerified := true)])
  }

  function VerifyEmail(env: Env, db: Db, rawToken: string, raw: string, now: int): Outcome<Session> {
    var hash := env.hashToken(rawToken);
    if hash !in db.verification || db.verification[hash].expiresAt <= now
        then Outcome(db, Err(InvalidVerificationToken))
    else
      var u := db.verification[hash].userId;
      var consumed := db.(verification := db.verification - {hash});
      if u !in db.users then Outcome(consumed, Err(UserNotFound))
      else StartSession(env, Verified(consumed, u), u, raw, now)
  }

  function Refresh(env: Env, db: Db, rawToken: string, raw: string, now: int): Outcome<Session> {
    var hash := env.hashToken(rawToken);
    if hash !in db.refresh then Outcome(db, Err(InvalidCredentials))
    else
      var stored := db.refresh[hash];
      var consumed := db.(refresh := db.refresh - {hash});
      if now > stored.expiresAt then Outcome(consumed, Err(InvalidCredentials))
      else StartSession(env, consumed, stored.userId, raw, now)
  }

  function Logout(env: Env, db: Db, rawToken: string): Db {
    db.(refresh := db.refresh - {env.hashToken(rawToken)})
  }

  /** Links the identity, or accepts that this very user already has it. */
  ghost function Link(db: Db, u: UserId, provider: string, claims: LinkClaims): Result<Db, AuthError> {
    var created := CreateIdentity(db, claims.subject, Identity(u, provider, claims.email, false));
    if created.Some? then Ok(created.value)
    else if claims.subject !in db.identities then Err(IdentityRefused)
    else if db.identities[claims.subject].userId != u then Err(LinkConflict)
    else Ok(db)
  }

  ghost function ConfirmAccountLink(env: Env, db: Db, pendingToken: string, password: string, raw: string,
      now: int): Outcome<Session> {
    var claims := env.linkClaims(pendingToken, now);
    if claims.None? || claims.value.subject == "" || claims.value.email == "" then Outcome(db, Err(InvalidPendingToken))
    else
      var owner := FindByEmail(db, claims.value.email);
      if owner.None? then Outcome(db, Err(InvalidPendingToken))
      else
        var user := db.users[owner.value];
        if user.passwordHash.None? then Outcome(db, Err(NoPasswordSet))
        else if !env.passwordMatches(user.passwordHash.value, password) then Outcome(db, Err(InvalidCredentials))
        else
          var provider := ProviderOf(env.upper, claims.value.subject);
          if provider.None? then Outcome(db, Err(InvalidPendingToken))
          else
            var linked := Link(db, owner.value, provider.value, claims.value);
            if linked.Err? then Outcome(db, Err(linked.error))
            else StartSession(env, Verified(linked.value, owner.value), owner.value, raw, now)
  }

  function SetPassword(db: Db, u: UserId, newPassword: string, hashed: Option<string>): Outcome<()> {
    if ByteLength(newPassword) < 8 then Outcome(db, Err(PasswordTooShort))
    else if u !in db.users then Outcome(db, Err(UserNotFound))
    else if db.users[u].passwordHash.Some? then Outcome(db, Err(PasswordAlreadySet))
    else if hashed.None? then Outcome(db, Err(HashFailed))
    else Outcome(db.(users := db.users[u := db.users[u].(passwordHash := hashed)]), Ok(()))
  }

  function Trimmed(env: Env, value: Option<string>): Option<string> {
    if value.Some? then Some(env.trim(value.value)) else None
  }

  /** The checks UpdateProfile makes before it reads anything. */
  function CheckProfile(env: Env, u: UserId, displayName: string, avatarUrl: Option<string>, statusText: Option<string>)
      : Result<ProfileEdit, AuthError>
  {
    var edit := ProfileEdit(env.trim(displayName), Trimmed(env, avatarUrl), Trimmed(env, statusText));
    if u == NIL_USER then Err(UserNotFound)
    else if ByteLength(edit.displayName) > 100 then Err(InvalidInput)
    else if edit.avatarUrl.Some? && edit.avatarUrl.value != "" && !env.isWebUrl(edit.avatarUrl.value) then
      Err(InvalidInput)
    else if edit.statusText.Some? && ByteLength(edit.statusText.value) > 150 then Err(InvalidInput)
    else Ok(edit)
  }

  /** The edited row, saved when it differs. */
  ghost function EditProfile(db: Db, u: UserId, edit: ProfileEdit): Outcome<User> {
    if u !in db.users then Outcome(db, Err(UserNotFound))
    else
      var row := WithEdit(db.users[u], edit);
      var saved := if row == db.users[u] then Some(db) else SaveUser(db, u, row);
      if saved.None? then Outcome(db, Err(Refused)) else Outcome(saved.value, Ok(row))
  }

  ghost function UpdateProfile(env: Env, db: Db, u: UserId, displayName: string, avatarUrl: Option<string>,
                               statusText: Option<string>): Outcome<User> {
    var checked := CheckProfile(env, u, displayName, avatarUrl, statusText);
    if checked.Err? then Outcome(db, Err(checked.error)) else EditProfile(db, u, checked.value)
  }

  /** An Auth0 login with nothing running beside it. */
  ghost function SyncAuth0User(env: Env, db: Db, subject: string, email: string, displayName: string, avatarUrl: string,
                               emailVerified: bool, id: UserId): Outcome<UserId> {
    var subject, email := env.trim(subject), env.Normalize(email);
    var name, avatar := env.trim(displayName), env.trim(avatarUrl);
    var provider := ProviderOf(env.upper, subject);
    if subject == "" then Outcome(db, Err(SubjectRequired))
    else if provider.None? then Outcome(db, Err(InvalidSubject))
    else if !emailVerified then Outcome(db, Err(ProviderEmailNotVerified))
    else if subject in db.identities then
      var u := db.identities[subject].userId;
      if u !in db.users then Outcome(db, Err(UserNotFound))
      else
        var user := WithProfile(db.users[u], email, name, avatar);
        var saved := if user == db.users[u] then Some(db) else SaveUser(db, u, user);
        if saved.None? then Outcome(db, Err(Refused)) else Outcome(saved.value, Ok(u))
    else if email == "" then Outcome(db, Err(EmailRequired))
    else if FindByEmail(db, email).Some? then Outcome(db, Err(LinkRequired))
    else
      var user := User(email, if name == "" then email else name, avatar, "", None, true);
      var db' := db.(users := db.users[id := user]);
      var linked := CreateIdentity(db', subject, Identity(id, provider.value, email, true));
      if linked.None? then Outcome(db', Err(IdentityRefused)) else Outcome(linked.value, Ok(id))
  }
}
