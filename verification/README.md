# Verified model of the chat and task server

A Dafny model of the stateful core of the server: the WebSocket chat rooms, the sharded room index, accounts and
their tokens, identity linking, workspaces and invitations, slugs, message history, task paging and patching, and
the decoding of RSA exponents. `dafny verify dfyconfig.toml` checks everything.

How the parts are modelled:

- **Services** are classes over a mutable store (`ChatService`, `Manager`, `LocalAuthService`, `UserService`,
  `WorkspaceService`, `InvitationService`, `TaskService`), method by method as in the source. Each method is proved
  equal to a function from old state and inputs to new state and answer, which the theorems over whole runs are
  about, and to meet a contract that says, of the tables alone, when exactly it succeeds, when exactly it is refused
  with which error, and what it changes (`AuthContracts`, `WorkspaceContracts`, `TaskPatch`).
- **Concurrency** is modelled by step machines. `ChatMachine` has one program counter per connection, a
  readers-writer lock on the table, a mutex per client record and a delivery log per connection. `RoomLinearization`
  has a lock per shard. `IdentityMachine` takes one step per repository call. In `WorkspaceRuns` an accept is two
  steps, its reads and its transaction.
- **The database** is explicit tables with the schema's unique indexes, foreign keys and cascades. Time is an
  integer that never goes back. Library functions (hashing, password comparison, token signatures, trimming and case
  mapping where their details do not matter) are arbitrary functions in an `Env` record.

Files: `Prelude`, `RoomTable`, `Int64` (shared); `ChatRooms`, `ChatMachine`, `ChatInvariant`, `ChatTheorems`,
`ChatBroadcasts`, `ChatCleanup`; `RoomShards`, `RoomManager`, `RoomLinearization`, `RoomHistory`; `AuthStore`,
`AuthSpec`, `AuthServices`, `AuthRuns`, `AuthChanges`, `AuthTheorems`, `AuthContracts`, `AuthJourneys`;
`IdentityMachine`, `IdentityTheorems`, `IdentityAlone`, `IdentityRaces`, `OrphanRaces`, `OrphanRuns`;
`WorkspaceStore`, `WorkspaceSpec`, `WorkspaceServices`, `WorkspaceRuns`, `WorkspaceContracts`, `WorkspaceJourneys`,
`NonInterference`; `Slug`, `SlugSpelling`; `History`, `HistoryWalk`; `TaskPaging`, `TaskPatch`; `RsaExponent`.

Where the code does less than a caller may expect:

- Walking the history page by page shows the whole channel exactly when no page ends between two messages of equal
  creation time; otherwise the rest of that group is skipped (`WholeHistoryExactly`, `EveryLimitExactly`; a walk that
  skips: `TiesCanHide`).
- A page number so large that its 64-bit offset wraps can show rows again. The largest page number shows the first
  page again when the page size is even, as the default is, and nothing when it is odd (`LaterPageEmptyExactly`,
  `LargestPageExactly`, `LargestPageShowsFirst`).
- A slug starts with a dash exactly when the name has no letter a-z and no digit once lower-cased
  (`LeadingDashExactly`; the name `!!!`: `PunctuationHasLeadingDash`). The source's own example suffix, `a3z9k2`, has
  a 9, which the generator's alphabet (a-z and 2-7) does not contain; the model follows the code.
- An RSA exponent of 2^63 or more is not always rejected: it is when its low 64 bits, read as a signed number, are
  not positive, and otherwise those low bits are taken for the exponent (`Decoded`; 2^64 + 65537 decodes as 65537:
  `LargeExponentAliases`).
- With calls interleaved, a verified user can become unverified: a call, such as a login through a provider or a
  profile update, saves a row it read before the verification. Of the five calls that save a user's row
  (SyncAuth0User, UpdateProfile, SetPassword, ConfirmAccountLink, VerifyEmail) these saves are the only way
  (`UnverifiesExactly`, `StaysVerified`, `CanUnverifyExactly`; runs: `VerificationCanBeLost`,
  `VerificationLostToEdit`). The link then still issues a session, for a user who is not verified.
- With logins interleaved, a provider subject can be linked to a user that was there before without the consent the
  source asks for otherwise. That is only by the recovery from a failed insert (`LinksExistingByRecovery`,
  `AloneLinksItsOwn`; a run: `ConsentCanBeSkipped`).
- Two interleaved logins of one new subject that report different emails can leave a user that nobody can log in as
  and whose email nobody else can use, for good (`UserCanBeOrphaned`, `OrphanLocksEmail`, `OrphanForGood`). That is
  only by the recovery from a failed insert of the identity (`OrphanByRecovery`, `AloneGivesIdentity`).

## Model

| member | source | states |
|---|---|---|
| `ChatRooms.ChatService.JoinRoom` | internal/service/chat_service.go:54-70 | a non-member or a failed lookup changes nothing; a member is added to exactly the one room, with a fresh client record that replaces any earlier one |
| `ChatRooms.ChatService.LeaveRoom` | internal/service/chat_service.go:72-81 | exactly this connection leaves exactly this room, and a room left empty is dropped |
| `ChatRooms.ChatService.Snapshot` | internal/service/chat_service.go:88-98 | every member of the room exactly once, each with the client record the table holds for it |
| `ChatRooms.ChatService.WriteAll` | internal/service/chat_service.go:100-113 | each snapshot entry is written once, in order, and the failed list is exactly those whose write failed |
| `ChatRooms.ChatService.RemoveFailed` | internal/service/chat_service.go:115-127 | exactly the failed connections go, from this room only; an emptied room is dropped; no failures, no change |
| `ChatRooms.ChatService.BroadcastToRoom` | internal/service/chat_service.go:83-128 | an undisturbed broadcast reaches each accepting member exactly once and afterwards exactly the refusing members are gone, other rooms and records untouched |
| `ChatRooms.BroadcastOutcome` | internal/service/chat_service.go:100-127 | the write and clean-up phases together: who was written to and who is still in the room |
| `RoomTable.LeaveUndoesJoin` | internal/service/chat_service.go:63-81 | joining and then leaving restores the table exactly |
| `RoomTable.WithMemberMembers` | internal/service/chat_service.go:65-68 | a join adds one connection to one room and leaves every other membership and record as it was |
| `RoomTable.WithoutMembers` | internal/service/chat_service.go:120-127 | a removal takes out the named connections of the named room and nothing else |
| `ChatInvariant.StepTableLock` | internal/service/chat_service.go:63-119 | every step keeps: the table lock is held by exactly the goroutines inside a critical section, writers excluding all |
| `ChatInvariant.StepClientLocks` | internal/service/chat_service.go:101-107 | every step keeps: a client's mutex is held by exactly the goroutine writing to it |
| `ChatInvariant.StepLifecycle` | internal/handler/chat_handler.go:82-115 | every step keeps: a connection joins at most once, and has joined and not left while its loop runs |
| `ChatInvariant.StepRegistry` | internal/service/chat_service.go:68 | every step keeps: no connection has two client records and the table points at the right one |
| `ChatInvariant.StepMembership` | internal/service/chat_service.go:54-127 | every step keeps the rooms equal to joined, not left, not removed, with no empty room |
| `ChatInvariant.StepLogs` | internal/service/chat_service.go:100-113 | every step keeps the logs made of sent messages of the connection's channel, in each sender's order |
| `ChatInvariant.StepDelivery` | internal/service/chat_service.go:83-113 | every step keeps, for every goroutine, whom of its snapshot it has served and whom it has still to serve, and all logs in order |
| `ChatInvariant.StepInv` | internal/service/chat_service.go:54-128 | every step of every goroutine keeps the whole invariant |
| `ChatInvariant.RunInv` | internal/handler/chat_handler.go:82-115 | so does every interleaved run |
| `ChatTheorems.DeliveryInOrder` | internal/service/chat_service.go:83-113 | in every interleaving, what a connection gets from one sender is a subsequence of what that sender sent, nothing twice |
| `ChatTheorems.DeliveryStaysInChannel` | internal/handler/chat_handler.go:108-114 | a delivered message was sent, and its sender is in the receiver's channel |
| `ChatTheorems.SnapshotIsTheRoom` | internal/service/chat_service.go:88-98 | the snapshot step takes exactly the members of the room at that moment, each once |
| `ChatTheorems.BroadcastReachesSnapshot` | internal/service/chat_service.go:100-113 | when a broadcast's writes are done, every connection of its snapshot has the message or was closed and listed as failed |
| `ChatBroadcasts.BroadcastReachesTheRoom` | internal/service/chat_service.go:88-113 | from snapshot to last write, whatever runs in between: a connection that is not closed has the message iff it was in the room at the snapshot |
| `ChatBroadcasts.OnlyTheRoomHears` | internal/service/chat_service.go:88-113 | after any run from the snapshot on, nobody has the message who was not in the room at the snapshot |
| `ChatCleanup.ReceivedReachesTheRoom` | internal/handler/chat_handler.go:108-114 | from the receipt of a message until its sender reads again, whatever runs in between: a snapshot of the room was taken, and each connection in it has the message by now or has been closed and is in no room |
| `ChatCleanup.ClosedInRoomIsListed` | internal/service/chat_service.go:100-127 | a closed connection still in a room is on the list of a goroutine of that channel that is writing or has yet to clean up |
| `ChatCleanup.QuietRoomsAreOpen` | internal/service/chat_service.go:115-127 | when no broadcast is under way no closed connection is in any room |
| `ChatCleanup.FailedAreRemoved` | internal/service/chat_service.go:115-127 | over any run, when the goroutine that listed a connection as failed reads again, the connection is in no room |
| `ChatCleanup.ReturnedAreClosed` | internal/handler/chat_handler.go:82-89 | a handler that has returned has closed its connection |
| `ChatCleanup.ComesAndGoes` | internal/handler/chat_handler.go:82-115 | a connection joins only after it was admitted and stays in its room until a read of its own has failed or a failed write removed it |
| `ChatTheorems.NeverTwoLocks` | internal/service/chat_service.go:63-127 | no goroutine ever holds two locks |
| `ChatTheorems.OneWriterPerConnection` | internal/service/chat_service.go:101-107 | two goroutines are never writing broadcast frames to one connection, even through different client records |
| `ChatTheorems.TableIsRaceFree` | internal/service/chat_service.go:36-39 | no goroutine can touch the table while another is about to change it under the lock |
| `ChatTheorems.HoldersCanStep` | internal/service/chat_service.go:63-127 | whoever holds a lock can take a step |
| `ChatTheorems.HolderStepReleases` | internal/service/chat_service.go:63-127 | any step of a lock's holder releases the lock |
| `ChatTheorems.NoDeadlock` | internal/service/chat_service.go:63-127 | in every reachable state with an unfinished handler some goroutine can step, waiting writers blocking new readers included |
| `ChatTheorems.RoomsAreExact` | internal/service/chat_service.go:54-127 | in every reachable state a connection is in a room iff it joined it, has not left and was not removed as failed; no room is empty; only closed connections are removed |
| `ChatTheorems.NothingLeaks` | internal/handler/chat_handler.go:82-89 | once every handler has returned the table is empty, whatever raced |
| `RoomShards.ShardIndexIsByteXor` | internal/service/chat/room_manager.go:69-77 | the shard index is byte 7 XOR byte 15 of the channel id |
| `RoomShards.ShardIndex` | internal/service/chat/room_manager.go:40-43 | the index is below 256 |
| `RoomShards.EveryShardIsReachable` | internal/service/chat/room_manager.go:69-77 | whatever the other bytes, a time-ordered prefix included, the last byte alone reaches every shard |
| `RoomManager.ShardUpdate` | internal/service/chat/room_manager.go:57-77 | a change to one channel made in its own shard is that change to the flat index, and to nothing else |
| `RoomManager.RepresentsOne` | internal/service/chat/room_manager.go:57-67 | the shards determine the flat index they stand for |
| `RoomManager.Manager.constructor` | internal/service/chat/room_manager.go:49-55 | the empty index |
| `RoomManager.Manager.Join` | internal/service/chat/room_manager.go:79-93 | nil is refused without a change; otherwise the flat index gains exactly this connection, filed under its own id |
| `RoomManager.Manager.Leave` | internal/service/chat/room_manager.go:95-107 | the flat index loses exactly this connection, and the room when it was the last |
| `RoomManager.Manager.List` | internal/service/chat/room_manager.go:109-122 | every member exactly once, and as many as Count says |
| `RoomManager.Manager.Count` | internal/service/chat/room_manager.go:124-129 | the number of members |
| `RoomLinearization.StepInv` | internal/service/chat/room_manager.go:79-129 | every interleaved step keeps the shards equal, up to bodies still to run, to the serial run in lock-acquisition order |
| `RoomLinearization.AnswersAreSerial` | internal/service/chat/room_manager.go:79-129 | in every concurrent history each call answers as the flat index does when the calls run in lock-acquisition order |
| `RoomLinearization.QuietShardsAreSerial` | internal/service/chat/room_manager.go:79-129 | when no call is inside its critical section the shards hold exactly the serial result |
| `RoomHistory.SerialByHistory` | internal/service/chat/room_manager.go:79-107 | after any calls a connection is in a room iff its last call about it was a join, and as that join gave it |
| `RoomHistory.ListByHistory` | internal/service/chat/room_manager.go:109-122 | in every concurrent history List answers exactly the connections whose last call before it was a join |
| `RoomHistory.CountByHistory` | internal/service/chat/room_manager.go:124-129 | and Count how many there are |
| `RoomLinearization.RealTimeOrder` | internal/service/chat/room_manager.go:79-129 | that order respects real time: a returned call precedes all that acquire later |
| `RoomLinearization.SerialIsWellFiled` | internal/service/chat/room_manager.go:86-106 | in the serial result no room is empty and every connection is filed under its own id |
| `AuthServices.Database.RowWithEmail` | migrations/000002_rebuild_schema.up.sql:39 | the unique-email lookup finds a row iff there is one |
| `AuthServices.Database.CreateIdentityRow` | migrations/000002_rebuild_schema.up.sql:55-68 | inserts unless the subject is known, the user is missing, or the user has that provider or a primary already |
| `AuthServices.Database.FindLatestByUserID` | internal/repository/emailverification/repository.go:43-50 | the newest creation time among the user's tokens, none when there is none |
| `AuthServices.Database.ConsumeValidByHash` | internal/repository/emailverification/repository.go:52-66 | deletes an unexpired token and names its user, or changes nothing |
| `AuthServices.Database.DeleteTokensOfUser` | internal/repository/emailverification/repository.go:72-74 | the user's tokens go, no others |
| `AuthServices.Database.DeleteByID` | migrations/000005_add_email_verification.up.sql:6-12 | deleting a user takes its identities, sessions and verification tokens with it |
| `AuthServices.LocalAuthService.Register` | internal/service/local_auth_service.go:81-125 | new state and answer of the call on every branch, the mail failure's roll-back included, and what RegisterExactly says |
| `AuthServices.LocalAuthService.ResendVerification` | internal/service/local_auth_service.go:127-157 | new state and answer; silent for unknown and verified users; refused within the cooldown |
| `AuthServices.LocalAuthService.Login` | internal/service/local_auth_service.go:159-187 | new state and answer; a session only for a right password and a verified email |
| `AuthServices.LocalAuthService.VerifyEmail` | internal/service/local_auth_service.go:189-215 | new state and answer; the token is consumed, the user marked, a session opened |
| `AuthServices.LocalAuthService.Refresh` | internal/service/local_auth_service.go:217-233 | new state and answer; the old token goes even when expired, a new one comes only when not |
| `AuthServices.LocalAuthService.Logout` | internal/service/local_auth_service.go:235-238 | exactly the presented token goes |
| `AuthServices.LocalAuthService.ConfirmAccountLink` | internal/service/local_auth_service.go:240-317 | new state and answer; a failed insert is recovered when the very same user has the identity |
| `AuthServices.LocalAuthService.SetPassword` | internal/service/local_auth_service.go:319-339 | new state and answer; a password that is set is never replaced |
| `AuthServices.LocalAuthService.SendVerificationEmail` | internal/service/local_auth_service.go:341-358 | the new token replaces whatever the user had |
| `AuthServices.LocalAuthService.IssueTokenPair` | internal/service/local_auth_service.go:360-388 | one session row more, for this user and this token |
| `AuthServices.UserService.UpdateUserProfile` | internal/service/user_service.go:152-170 | saves the row with the reported fields exactly when one differs; empty fields keep their value; a taken email is refused |
| `AuthServices.UserService.UpdateProfile` | internal/service/user_service.go:172-230 | new state and answer on every branch; exactly the fields asked for change, and only when one differs is the row saved |
| `AuthServices.UserService.SyncAuth0User` | internal/service/user_service.go:52-131 | new state and answer of a login that nothing runs beside |
| `AuthContracts.ProviderExactly` | internal/service/user_service.go:232-238 | the provider of a subject, `p`, a bar and any rest, is `p` in capitals; none when `p` is empty |
| `AuthContracts.NoProviderExactly` | internal/service/user_service.go:232-238 | there is none iff there is no bar or it comes first |
| `AuthContracts.DeleteUserExactly` | migrations/000002_rebuild_schema.up.sql:57-75 | exactly the user and the user's identities and tokens go |
| `AuthContracts.LoginExactly` | internal/service/local_auth_service.go:159-187 | Ok iff a user has the normalised email, a hash the password matches and a verified email; each refusal under exactly its own condition; one session more of that user and no other change |
| `AuthContracts.RegisterExactly` | internal/service/local_auth_service.go:81-125 | each outcome under exactly its condition; the new row field by field and a token for a day; a mail that fails leaves everything as it was |
| `AuthContracts.ResendExactly` | internal/service/local_auth_service.go:127-157 | refused for a minute after the last token of an unverified user, silent for the unknown and the verified, otherwise exactly that user's token is replaced |
| `AuthContracts.VerifyExactly` | internal/service/local_auth_service.go:189-215 | Ok iff the token is stored and its time not come; it is spent, its user marked, one session opened, nothing else |
| `AuthContracts.RefreshExactly` | internal/service/local_auth_service.go:217-233 | Ok iff the token is stored and its time not past; it is gone in any case |
| `AuthContracts.LinkExactly` | internal/service/local_auth_service.go:240-317 | each outcome under exactly its condition; the one identity row with the provider before the bar, not primary, the user verified, one session |
| `AuthContracts.SetPasswordExactly` | internal/service/local_auth_service.go:319-339 | each outcome under exactly its condition; only the hash of that user changes |
| `AuthContracts.ProfileExactly` | internal/service/user_service.go:172-230 | each outcome under exactly its condition, limits included; the three fields as asked, all else kept |
| `AuthContracts.SyncExactly` | internal/service/user_service.go:52-131 | each outcome under exactly its condition; a known subject updates the fields reported; a new one with a free email adds one verified user and one primary identity with the provider before the bar |
| `AuthChanges.CallChanges` | internal/service/local_auth_service.go:81-339 | every call is a few row changes, each permitted where it is made |
| `AuthChanges.RollbackRestores` | internal/service/local_auth_service.go:117-122 | a registration whose mail fails leaves every table as it was |
| `AuthTheorems.StepInv` | internal/service/local_auth_service.go:81-388 | every call keeps the cross-table invariant and the truth of the event log |
| `AuthTheorems.RefreshTokensWorkOnce` | internal/service/local_auth_service.go:217-233 | in every run a refresh token is rotated at most once and is refused ever after |
| `AuthTheorems.VerificationTokensWorkOnce` | internal/service/local_auth_service.go:189-215 | a verification token that worked is refused after any further run |
| `AuthTheorems.SessionsBelongToVerifiedUsers` | internal/service/local_auth_service.go:178-233 | in every run of calls that do not overlap each stored refresh token belongs to an existing user whose email is verified |
| `AuthTheorems.VerifiedForGood` | internal/service/local_auth_service.go:205-310 | a verified user stays stored and verified through any run of calls that do not overlap |
| `AuthTheorems.AtMostOneVerificationToken` | internal/service/local_auth_service.go:341-358 | in every run of calls that do not overlap each user has at most one verification token |
| `AuthTheorems.VerificationRate` | internal/service/local_auth_service.go:147-156 | in calls that do not overlap, in any window of length L a user is sent at most floor(L / one minute) + 1 verification tokens |
| `AuthJourneys.RegisteredUserLogsIn` | internal/service/local_auth_service.go:81-215 | register, verify within a day, then any run: a login under the user's email succeeds iff the password matches the hash given at registration |
| `AuthJourneys.PasswordForGood` | internal/service/local_auth_service.go:328-330 | in every run a password once set is never replaced |
| `AuthJourneys.OneSubjectOfAProvider` | migrations/000002_rebuild_schema.up.sql:68 | in every run two subjects with the same part before the bar never belong to one user |
| `AuthJourneys.PasswordSetLogsIn` | internal/service/local_auth_service.go:319-339 | a first password set by a verified user, then any run: a login under the user's email succeeds iff the password matches its hash |
| `AuthJourneys.SubjectIsRecognised` | internal/service/user_service.go:69-79 | whoever has logged in through a provider is answered as the same user at every later login with the subject, in every run, unless the email reported is taken |
| `AuthJourneys.EveryCallKeepsItsContract` | internal/service/local_auth_service.go:81-339 | in a run every call does to the tables what its contract says |
| `AuthJourneys.NewTokensAreLogged` | internal/service/local_auth_service.go:341-358 | the log the rate bound counts misses no verification token |
| `AuthJourneys.RefreshEvents` | internal/service/local_auth_service.go:217-233 | a presented token is logged as rotated up to its time and as expired after it |
| `AuthTheorems.RefreshKeepsCount` | internal/service/local_auth_service.go:228-232 | a successful refresh keeps the number of sessions of every user |
| `AuthTheorems.SessionsAreConserved` | internal/service/local_auth_service.go:217-388 | a user's stored sessions are pairs issued by login, verify and link less logout hits less expired presentations |
| `AuthStore.IndexOfBar` | internal/service/user_service.go:232-238 | the first bar of a subject is what splits it |
| `IdentityMachine.StepInv` | internal/service/user_service.go:69-130 | every repository call of every goroutine, of sync, link, profile update, password change and verification, keeps the constraints and what each goroutine has established |
| `IdentityTheorems.SubjectKeepsItsUser` | internal/service/user_service.go:113-129 | in every interleaving a subject's user never changes once set |
| `IdentityTheorems.RepliesNameTheRow` | internal/service/user_service.go:69-130 | every successful call, by whatever recovery path, answers the existing user its subject's row names |
| `IdentityTheorems.SameSubjectSameUser` | internal/service/local_auth_service.go:285-303 | two successful calls for one subject, sync or link, answer the same user |
| `IdentityTheorems.ConstraintsHold` | migrations/000002_rebuild_schema.up.sql:59-68 | unique emails, one identity per user and provider, one primary per user, through every interleaving |
| `IdentityAlone.StepsDescend` | internal/service/user_service.go:52-131 | every repository call brings its call nearer to its end, recovery included |
| `IdentityAlone.SyncAlone` | internal/service/user_service.go:69-130 | run without interruption the steps do what the whole SyncAuth0User does |
| `IdentityAlone.LinkAlone` | internal/service/local_auth_service.go:265-310 | the same for ConfirmAccountLink, up to the token pair |
| `IdentityAlone.ProfileAlone` | internal/service/user_service.go:204-229 | the same for UpdateProfile, once its input is checked |
| `IdentityAlone.PasswordAlone` | internal/service/local_auth_service.go:324-338 | the same for SetPassword, once the password is hashed |
| `IdentityAlone.VerifyAlone` | internal/service/local_auth_service.go:190-208 | the same for VerifyEmail, up to the token pair |
| `IdentityRaces.UnverifiesExactly` | internal/repository/user/repository.go:45-47 | a step of any call that saves a user's row un-verifies a user exactly when it saves an unverified row of that user, read earlier, and the save goes through |
| `IdentityRaces.StaysVerified` | internal/repository/user/repository.go:45-47 | in every run that starts with no goroutine about to save an unverified row of a verified user, that user stays verified |
| `IdentityRaces.HolderUnverifies` | internal/repository/user/repository.go:45-47 | conversely, when a goroutine is about to save such a row and the save goes through, some run un-verifies the user |
| `IdentityRaces.CanUnverifyExactly` | internal/repository/user/repository.go:45-47 | while the rows held have the user's email, some run un-verifies the user iff a goroutine holds an unverified row |
| `IdentityRaces.VerificationLost` | internal/service/user_service.go:71-78 | for any unverified user with a password, when the provider reports a changed profile and the identity can be inserted: the run of a link and a sync, both successful, after which the verification is gone |
| `IdentityRaces.VerificationLostToEdit` | internal/service/user_service.go:204-229 | the same when the provider reports nothing new and the user, authenticated by the new identity, updates the profile |
| `IdentityRaces.VerificationCanBeLost` | internal/service/user_service.go:169 | such a user and run; the session issued next is of an unverified user |
| `IdentityRaces.SessionOfUnverified` | internal/service/local_auth_service.go:305-312 | the token pair the link goes on to issue breaks the rule that sessions belong to verified users |
| `IdentityRaces.LinksExistingExactly` | internal/service/user_service.go:105-112 | a sync comes to link an already existing user exactly by finding it after its own insert failed |
| `IdentityRaces.LinksExistingByRecovery` | internal/service/user_service.go:88-129 | in every run, a sync that links its subject to a user that was there went through that recovery to that user |
| `IdentityRaces.AloneLinksItsOwn` | internal/service/user_service.go:84-130 | a sync that nothing interrupts links a new subject only to the user it creates |
| `IdentityRaces.LinkedWithoutConsent` | internal/service/user_service.go:88-113 | the run in which another sync moves a user to the email between the lookup and the insert, and the subject is linked to that user |
| `IdentityRaces.ConsentCanBeSkipped` | internal/service/user_service.go:88-113 | such a user, with a password, and run |
| `OrphanRaces.OrphansExactly` | internal/service/user_service.go:113-129 | the insert of the identity leaves a user that had none without one exactly when the subject is taken, and then the call goes on to its recovery |
| `OrphanRaces.OrphanByRecovery` | internal/service/user_service.go:105-129 | in every run, a sync that has ended and left the user it created without an identity recovered to another user |
| `OrphanRaces.AloneGivesIdentity` | internal/service/user_service.go:84-130 | a sync that nothing interrupts gives the user it creates its subject's identity |
| `OrphanRaces.UserOrphaned` | internal/service/user_service.go:89-129 | the run of two logins of one new subject with different free emails, both answered with one user, the other left an orphan |
| `OrphanRaces.UserCanBeOrphaned` | internal/service/user_service.go:89-129 | such a run from empty tables |
| `OrphanRuns.OrphanLocksEmail` | internal/service/local_auth_service.go:95-97 | with an orphan's email, login and link answer that no password is set, registration that it is taken, a login through a provider that a link is required |
| `OrphanRuns.OrphanForGood` | internal/service/local_auth_service.go:81-339 | no run of calls gives an orphan a password, an identity or a token, or changes its email, short of setting its password as that user |
| `WorkspaceServices.Database.InsertWorkspace` | internal/repository/workspace/repository.go:32-34 | inserts unless the slug is taken or the owner missing |
| `WorkspaceServices.Database.AddMemberRow` | internal/repository/workspacemember/repository.go:37-43 | inserts unless the key exists or the workspace or the user is missing |
| `WorkspaceServices.Database.MarkInvitationUsed` | internal/repository/workspaceinvitation/repository.go:59-70 | marks the row whatever its mark was; fails only when it is gone |
| `WorkspaceServices.WorkspaceService.Create` | internal/service/workspace_service.go:64-96 | the workspace and its owner's ADMIN membership, or neither |
| `WorkspaceServices.WorkspaceService.GetByID` | internal/service/workspace_service.go:98-121 | the answer on every branch |
| `WorkspaceServices.WorkspaceService.ListByUser` | internal/service/workspace_service.go:123-134 | the caller's workspaces only, each once, newest first, as many as the page's slice has, and how many there are in all |
| `WorkspaceSpec.WorkspacePagesListAll` | internal/repository/workspace/repository.go:44-63 | pages 1 to the last together are exactly the caller's workspaces, each once, newest first |
| `WorkspaceSpec.DatabaseOrdersExist` | internal/repository/workspacemember/repository.go:72 | the orders asked of the database, by the queries' sort keys, exist |
| `WorkspaceServices.WorkspaceService.Update` | internal/service/workspace_service.go:136-167 | new state and answer; only the name changes |
| `WorkspaceServices.WorkspaceService.ListMembers` | internal/service/workspace_service.go:169-189 | the members only, with their profiles, each once, earliest joined first, as many as the page's slice has, and how many there are in all |
| `WorkspaceSpec.MemberPagesListAll` | internal/repository/workspacemember/repository.go:56-76 | pages 1 to the last together are exactly the members, each once, earliest joined first |
| `WorkspaceServices.WorkspaceService.Delete` | internal/service/workspace_service.go:191-219 | new state and answer; memberships and invitations go with the workspace |
| `WorkspaceServices.InvitationService.Invite` | internal/service/workspace_invitations.go:57-109 | new state and answer; nothing is stored when the mail fails |
| `WorkspaceServices.InvitationService.ResendInvitation` | internal/service/workspace_invitations.go:111-173 | new state and answer; an expired row is renewed in place, and not when the mail fails |
| `WorkspaceServices.InvitationService.AcceptInvitation` | internal/service/workspace_invitations.go:179-231 | new state and answer on every branch |
| `WorkspaceServices.InvitationService.AcceptTransaction` | internal/service/workspace_invitations.go:216-225 | the membership and the used mark, or neither |
| `WorkspaceContracts.CreateExactly` | internal/service/workspace_service.go:64-96 | each outcome under exactly its condition; both rows field by field |
| `WorkspaceContracts.GetExactly` | internal/service/workspace_service.go:98-121 | the stored row for members, not found for everybody else, present or not |
| `WorkspaceContracts.UpdateExactly` | internal/service/workspace_service.go:136-167 | Ok iff the name is acceptable and the actor a member; exactly the name changes |
| `WorkspaceContracts.UpdateIsSeen` | internal/service/workspace_service.go:161-166 | what a successful update answers is what every member gets next |
| `WorkspaceContracts.DeleteExactly` | internal/service/workspace_service.go:191-219 | Ok iff the actor is a member and the owner; exactly the workspace, its memberships and its invitations go |
| `WorkspaceContracts.MemberFields` | internal/repository/workspacemember/repository.go:56-76 | one entry for every membership, with the user's email, name and avatar and the membership's role and time |
| `WorkspaceContracts.WorkspaceFields` | internal/repository/workspace/repository.go:44-63 | the list holds exactly the rows of workspaces the user is a member of |
| `WorkspaceContracts.InviteExactly` | internal/service/workspace_invitations.go:57-109 | each refusal under exactly its condition; only an ADMIN writes; one new row for the normalised address, good for 48 hours |
| `WorkspaceContracts.ResendExactly` | internal/service/workspace_invitations.go:111-173 | the same refusals; the row found gets the new token and 48 hours more and keeps all else |
| `WorkspaceContracts.AcceptExactly` | internal/service/workspace_invitations.go:179-231 | Ok iff an unused invitation with the token is not past its time and the actor is its addressee and no member; each refusal under exactly its condition; one membership and one used mark |
| `WorkspaceJourneys.OnlyOwnersInvite` | internal/service/workspace_invitations.go:63-69 | in every reachable state an invitation row is written only at the request of its workspace's owner, or by its addressee's acceptance |
| `WorkspaceJourneys.ValidInvitationBlocks` | internal/service/workspace_invitations.go:76-82 | while an address has an invitation and none used or past its time, inviting or re-inviting it changes nothing |
| `WorkspaceJourneys.EveryStepKeepsItsContract` | internal/service/workspace_invitations.go:57-173 | in a run every step but an accept's does to the tables what its call's contract says |
| `WorkspaceJourneys.AcceptInTwoSteps` | internal/service/workspace_invitations.go:179-231 | the two steps of an accept, with nothing between them, are the whole call |
| `WorkspaceJourneys.InvitationWorksTwoDays` | internal/service/workspace_invitations.go:88-97 | over runs: an invitation is accepted from its addressee up to 48 hours after it was sent and refused as expired after that, unless used or gone with its workspace |
| `WorkspaceRuns.CommitUsesFresh` | internal/service/workspace_invitations.go:216-225 | a committed accept found its invitation unused, for otherwise the membership key would have refused |
| `WorkspaceRuns.StepInv` | internal/service/workspace_invitations.go:57-231 | every step, racing accepts included, keeps the invariant |
| `WorkspaceRuns.MembersAreOwnerPlusUsed` | internal/service/workspace_invitations.go:184-227 | in every reachable state a workspace has exactly one member more than it has used invitations |
| `WorkspaceRuns.SecondAcceptRollsBack` | internal/service/workspace_invitations.go:216-225 | an accept that lost the race fails on the membership key and changes nothing |
| `WorkspaceRuns.OnlyAdminIsOwner` | internal/service/workspace_service.go:78-88 | in every reachable state the one ADMIN of a workspace is its owner |
| `WorkspaceRuns.GateAgreesWithDelete` | internal/middleware/rbac.go:54-72 | the ADMIN gate admits an actor exactly when Delete's owner check does |
| `NonInterference.AnswersKeepContracts` | internal/service/workspace_service.go:98-219 | the answers compared are those the calls' contracts promise |
| `NonInterference.CallCannotTell` | internal/service/workspace_service.go:98-219 | stores that agree on the actor's workspaces answer any call of the actor alike and still agree afterwards |
| `NonInterference.CallsCannotTell` | internal/service/workspace_service.go:98-219 | so for any sequence of calls |
| `NonInterference.HiddenLooksAbsent` | internal/service/workspace_service.go:204-212 | a workspace the actor is no member of looks like one that is not there |
| `Slug.CleanIsScan` | internal/service/workspace_service.go:27-32 | the five passes compute what one scan with a pending-separator flag does |
| `SlugSpelling.CleanSpellsName` | internal/service/workspace_service.go:27-32 | for an ASCII name: exactly its letters and digits in order, capitals as small letters, a dash between two of them iff white space or a dash separates them in the name |
| `SlugSpelling.OneSpelling` | internal/service/workspace_service.go:27-32 | only one text is so spelled |
| `SlugSpelling.CaseDoesNotMatter` | internal/service/workspace_service.go:28 | two ASCII names that differ only in case have the same slug |
| `SlugSpelling.BaseIsCut` | internal/service/workspace_service.go:34-36 | the base is all of it, or its first 93 characters less a dash at the end |
| `SlugSpelling.HelloMyTeam` | internal/service/workspace_service.go:26 | the example in the source: `Hello! My  Team@` gives `hello-my-team-` and the random part |
| `Slug.BaseIsIdempotent` | internal/service/workspace_service.go:27-36 | a slug base made from a slug base, truncation included, is itself |
| `Slug.SlugShape` | internal/service/workspace_service.go:23-39 | at most 100 characters of a-z, 0-9 and dash, no doubled dash, no dash at the end |
| `Slug.LeadingDashExactly` | internal/service/workspace_service.go:32-38 | a dash at the front exactly when no letter or digit is left of the name |
| `Slug.PunctuationHasLeadingDash` | internal/service/workspace_service.go:32-38 | the slug of `!!!` is a dash and the random part |
| `History.PageShowsNewest` | internal/repository/message/repository.go:29-44 | a page is newest first, as full as the limit allows, and leaves out nothing newer than it shows; the query fails exactly when the cursor is unknown |
| `HistoryWalk.WalkIgnoresArrivals` | internal/repository/message/repository.go:29-44 | with every fetch free to order equal times as it likes, saving newer messages between fetches changes nothing about which walks there are |
| `HistoryWalk.WalkEnds` | internal/repository/message/repository.go:29-44 | every walk ends within one fetch more than there are messages, and until it does the next fetch is answered |
| `HistoryWalk.WalkNeverRepeats` | internal/repository/message/repository.go:29-44 | every walk shows messages of the channel only, newest first, none twice |
| `HistoryWalk.WholeHistoryExactly` | internal/repository/message/repository.go:38 | every walk that has ended showed the whole channel iff no page ended inside a group of equal times |
| `HistoryWalk.DistinctTimesShowAll` | internal/repository/message/repository.go:31-38 | with distinct times every walk that has ended showed exactly the channel, newest first |
| `HistoryWalk.EveryLimitExactly` | internal/repository/message/repository.go:38 | every walk of every page size shows the whole channel iff its times are distinct |
| `HistoryWalk.TiesCanHide` | internal/repository/message/repository.go:38 | two messages of one time read one by one: a walk that ends with only one shown |
| `TaskPaging.ListByWorkspace` | internal/service/task_service.go:99-130 | the clamped page of the rows and their number, or the refusal |
| `TaskPaging.List` | internal/handler/task_handler.go:138-167 | the handler reports the page and size the service used, and the number of pages |
| `TaskPaging.PagesAreTheWholeList` | internal/handler/task_handler.go:154-160 | pages 1 to the reported number concatenate to exactly the whole list |
| `TaskPaging.LaterPagesAreEmpty` | internal/service/task_service.go:124 | every later page whose offset fits 63 bits is empty |
| `TaskPaging.LaterPageEmptyExactly` | internal/service/task_service.go:124 | a page of a list that is not empty is empty iff its 64-bit offset reaches the end of the rows |
| `TaskPaging.LargestPageExactly` | internal/service/task_service.go:124 | for every requested size the largest page number shows the first page when the clamped size is even and nothing when it is odd |
| `TaskPaging.LargestPageShowsFirst` | internal/service/task_service.go:124 | so with the default size it shows the first page of any list that has a row |
| `TaskPatch.TaskService.Create` | internal/service/task_service.go:50-75 | new state and answer; status TODO, priority defaulted |
| `TaskPatch.TaskService.UpdateTask` | internal/service/task_service.go:132-235 | stores exactly the field-wise overlay when every present field is valid, and otherwise changes nothing and says why |
| `TaskPatch.UpdateExactly` | internal/service/task_service.go:132-235 | each outcome under exactly its condition; field by field, what is present is stored as given and what is absent is kept |
| `TaskPatch.TaskService.DeleteTask` | internal/service/task_service.go:237-259 | Ok iff the task is there and the actor a member of its workspace; exactly that task goes |
| `TaskPatch.UpdateIsIdempotent` | internal/service/task_service.go:153-234 | the same patch twice is the same patch once |
| `TaskPatch.DisjointUpdatesCommute` | internal/service/task_service.go:153-234 | patches of different fields commute, accepted or not, whoever sends them |
| `TaskPatch.EveryCallKeepsItsContract` | internal/service/task_service.go:50-259 | in a run every call does to the tasks what its contract says |
| `TaskPatch.RunsStayClosed` | internal/service/task_service.go:63-192 | over every run statuses and priorities stay in their closed sets |
| `RsaExponent.Decoded` | internal/middleware/auth.go:328-334 | exact iff the big-endian value is positive and below 2^63; rejected iff its low 64 bits, as a signed number, are not positive |
| `RsaExponent.DecodeExponent` | internal/middleware/auth.go:328-334 | the wrapping shift-and-add loop computes that |
| `RsaExponent.LeadingZerosDoNotMatter` | internal/middleware/auth.go:328-331 | a leading zero byte does not change the value |
| `RsaExponent.RoundTrip` | internal/middleware/auth.go:328-338 | every exponent from 1 to 2^63 - 1 survives encoding, zero-padding and decoding |
| `RsaExponent.EveryExponentHasAliases` | internal/middleware/auth.go:328-334 | every such exponent is also what its sum with any multiple of 2^64 decodes to |
| `RsaExponent.LargeExponentAliases` | internal/middleware/auth.go:328-334 | the nine bytes of 2^64 + 65537 decode as 65537 |
| `Int64.WrapIsUnique` | internal/middleware/auth.go:330 | two's-complement wrapping has one answer |

## Left out

- HTTP, WebSocket frames, JSON, mail, Kafka, Redis, configuration and wiring. Whether a frame parses, a write
  succeeds or a mail goes out is an arbitrary choice of each step or call.
- Cryptography: hashes, password comparison and pending-link signatures are arbitrary functions; random tokens are
  assumed not to collide by hash with earlier ones, and database ids not to repeat.
- Storage faults other than constraint conflicts and the mail-failure branches; the saving of a message before its
  broadcast, whose failure the source only logs.
- Database limits on text length, `updated_at`, and the rounding of times by the database; created-at times are the
  clock of the call that inserts.
- ChatMachine: a critical section is one step after its lock is acquired, since nobody else may enter it; the order
  in which the table is ranged over is arbitrary.
- ChatRooms.ChatService.BroadcastToRoom: its contract is about a broadcast that nothing interrupts; broadcasts that
  race with joins, leaves and each other are what ChatTheorems is about.
- Message order between different senders: broadcasts iterate their snapshots independently, so there is none.
- AuthTheorems.RefreshTokensWorkOnce: the account runs take each call as one step; two interleaved Refresh calls of
  one token, of which the source does not check the delete, are not covered.
- AuthTheorems.VerifiedForGood: about calls that do not overlap; IdentityRaces says when it fails of calls that do.
- AuthTheorems.SessionsBelongToVerifiedUsers: about calls that do not overlap; IdentityRaces.SessionOfUnverified.
- AuthTheorems.VerificationRate: about calls that do not overlap. Two overlapping ResendVerification calls can both
  pass the cooldown, both delete and both insert.
- AuthTheorems.AtMostOneVerificationToken: about calls that do not overlap, for the same reason.
- IdentityMachine: Register, whose roll-back deletes the user it created, and Refresh, Login and Logout are not among
  its calls; the requester of UpdateProfile and SetPassword is any user.
- ChatTheorems.OneWriterPerConnection: the reader of a connection answers ping and close frames on it by itself,
  without the client's mutex; these replies are not modelled.
- Changes to a user's email while invitations are being accepted, and a ResendInvitation that overlaps an
  AcceptInvitation.
- Tables that reference workspaces and users but take no part in the modelled calls (channels, tasks of a deleted
  workspace, activities).
- WorkspaceServices.InvitationService.Invite: which of several invitations for one address the lookup finds is left
  open, as the query leaves it; so at most one valid invitation per address is not claimed.
- Row order: in the task, workspace and member lists the order of rows that the query's sort keys leave equal is an
  arbitrary but fixed function of the rows. History pages may order equal times differently at every fetch.
- WorkspaceSpec.WorkspacePagesListAll: at most 2^63 - 100 rows, as for WorkspaceSpec.MemberPagesListAll.
- TaskPaging.PagesAreTheWholeList: a workspace has at most 2^63 - 100 tasks, here and in TaskPaging.List, and at most
  2^63 - 200 in TaskPaging.LargestPageExactly. An offset that is zero or negative is left out of the query, as the
  database library does.
- Negative history limits, which no caller passes; full-text search.
- Slug: which characters outside ASCII are letters and how they lower-case is an arbitrary function of the
  character; text that is not valid UTF-8 is not modelled.
- Case folding of emails beyond lower-casing: an invitation matches when the normalised emails are equal.
- GetByID and GetByAuth0ID of the user service, GetByID of the task service: queries of one row. The columns
  `is_active`, `created_at` and `updated_at` of users.
- The designs under docs/ (routing, back-pressure, token families), which no code implements.
