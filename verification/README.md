# Verified model of the drawing backend

A Dafny model of the long-lived state of a NestJS backend for real-time drawing, with proofs over every run of it.
`dafny verify dfyconfig.toml` checks the project.

Each service the repository writes as an object with mutable state is a class whose methods follow the source branch
by branch and are proved against specification functions on values. The theorems are about those functions and about
state machines built from them, for every sequence of events and, where the guarantee survives it, every interleaving
of single calls.

| Component | Files | Grain |
|---|---|---|
| Sockets, rooms, chat requests, blocks, account deletion | `RealtimeModel`, `RealtimeSafety`, `RealtimeTheorems`, `RealtimeConsent`, `RealtimeLaws`, `RealtimeServices` | one handler is one step, any number of worker processes |
| Rate limiters and their sweep | `RateLimiter`, `RateLimiterBounds` | one event or one sweep is one step |
| Group chat and invitations | `GroupModel`, `GroupSafety`, `GroupLaws`, `GroupServices`, `GroupRooms` | one call is one step |
| Backup, restore, retention | `BackupModel`, `BackupSafety`, `BackupTheorems`, `BackupCounts`, `BackupStore`, `BackupLaws`, `BackupRuns`, `BackupOutcomes`, `BackupServices` | one MongoDB, MySQL or process call is one step and may fail before or after its effect; any number of processes |
| Session versions | `Sessions` | increment, read, load and save are separate steps |
| Passkeys | `Passkeys`, `PasskeyRuns`, `PasskeyLaws` | one call is one step |
| Reward time | `Rewards` | one grant is one step |
| Subscriptions, Apple deliveries | `Subscriptions`, `SubscriptionSafety`, `SubscriptionLaws`, `AppleWebhook` | check, insert and processing of a delivery, load and save of a user row are separate steps |
| Push tokens and their migration | `PushTokens`, `PushTokenMigration` | one statement is one step |
| CSV export, free display name | `Csv`, `AdminName` | pure functions, one loop |

`Common` and `Ordering` hold the option type and `ORDER BY ... DESC` queries.

## What turned out differently from what one would expect

Each of these is stated exactly: when the property holds and when it does not.

- The limiters admit up to `(k + 1) * limit - 1` events in an interval of `k` windows, and some traffic reaches that bound.
- With several workers the `socketToRoom` cache goes stale when a room is closed, or a user removed, through another
  worker: it stays exact if and only if every socket forced out is held by the worker that forces it out.
- A Google renewal or recovery activates a subscription without raising the user's access flag. Apple's does raise it.
- A whole-row `save` of a user puts back what it loaded, the session version and the access flag among it. The version
  is kept if and only if no login incremented it since the load; otherwise an ended session can become valid again. In
  the same way the flag of an expired subscription can come back up.
- A write, of the application or of another process's restore, between the pre-restore dump and the first step by which
  a restore alters the database is lost, even if the download is open by then: the pre-restore record keeps what the
  restore replaced if and only if the last such write left the dumped contents.
- A failed mysqldump can leave a record that passes its own checksum and holds only part of the database.
- The count a retention sweep returns misses deletions that fail after their effect, and it includes records that the
  sweep of another process has removed, as happens when every worker runs the same schedule.
- Deleting an invalid push token goes by the id of a row read earlier, so it can delete a row that meanwhile holds a
  valid token.
- An Apple notification whose processing fails after it was recorded is never processed again. A renewal that fails is
  even acknowledged.
- The free display name can exceed 30 characters once a thousand names are taken.
- A strict reader of section 2 of RFC 4180 refuses a field with a bare carriage return, which the export leaves
  unquoted. A reader that takes only LF, the comma and the quote as special reads every table back.

## Model

| member | source | states |
|---|---|---|
| RealtimeTheorems.RoomsHoldOnlyEntitled | src/chat/chat.service.ts:212-243 | in every reachable state a connected socket in a 1-on-1 room belongs to a participant of an existing accepted request, and neither participant blocks the other |
| RealtimeTheorems.OneRoomPerSocket | src/realtime/draw.gateway.ts:487-586 | a socket is in at most one draw room |
| RealtimeTheorems.StrokesStayBetweenParticipants | src/realtime/draw.gateway.ts:634-653 | whoever receives a stroke relayed to a 1-on-1 room is entitled to that room, also when the sender's cache is stale |
| RealtimeTheorems.JoinAdmitsExactlyTheEntitled | src/realtime/draw.gateway.ts:487-586 | joining succeeds if and only if the user is entitled, then the socket is in that room and no other, and nobody else moves |
| RealtimeTheorems.AcceptedPairCanDraw | src/chat/chat.service.ts:134-189 | from every reachable state, accepting lets sockets of both participants join, on whichever workers they are, after which a stroke of either reaches the other; with a block in between the request is discarded and both joins are refused |
| RealtimeTheorems.BlockEvictsAndBars | src/users/users.service.ts:239-262 | after a successful block, also of somebody blocked already, the rooms between the two are empty and nobody is admitted to them |
| RealtimeTheorems.DeletionLeavesNothing | src/users/users.service.ts:134-144 | after deletion exactly the requests of others remain, no block mentions the user, and every occupied 1-on-1 room has its request |
| RealtimeConsent.RoomsNeedConsent | src/chat/chat.service.ts:134-189 | over every run whoever sits in a 1-on-1 room is one of two users of whom one asked the other in that run, with success, and the other answered yes, with success |
| RealtimeConsent.AcceptedNeedsConsent | src/chat/chat.service.ts:134-189 | over every run an accepted request was made by its sender and accepted by the user it was sent to |
| RealtimeConsent.EndedForGood | src/chat/chat.service.ts:159-210 | after a no of the recipient, a withdrawal or a removal no later run has anybody entitled to the chat, admitted to it or in its room |
| RealtimeLaws.ConnectionAdmitsIff | src/realtime/draw.gateway.ts:191-276 | a socket gets in if and only if its token names an existing user, not banned, in its current session version; it is then that user's entry everywhere, and a refused one leaves no trace |
| RealtimeLaws.DisconnectForgets | src/realtime/draw.gateway.ts:278-312 | a disconnected socket is in no index, cache or room any more, and nothing else changes |
| RealtimeLaws.LeavingFreesTheSeat | src/realtime/draw.gateway.ts:602-631 | whoever leaves sits nowhere, and all others keep seats and caches |
| RealtimeLaws.ClosingEmptiesTheRoom | src/realtime/draw.gateway.ts:366-409 | closing a group's room empties that room and no other |
| RealtimeLaws.RemovalTakesOneOut | src/realtime/draw.gateway.ts:411-433 | removing a user from a group's room takes out the registered socket and nobody else |
| RealtimeLaws.RequestIsMadeIff | src/chat/chat.service.ts:50-118 | a request is made if and only if one existing user asks another who exists and takes requests, with no block either way and no such open request; it is pending, from the one to the other, and nothing else changes |
| RealtimeLaws.AnswerDecides | src/chat/chat.service.ts:134-189 | only the recipient answers, and only an open request: yes accepts, no rejects, and a yes with a block in between removes it; nothing else changes |
| RealtimeLaws.WithdrawalRemoves | src/chat/chat.service.ts:191-210 | only the sender takes back a request, and only an open one; then exactly that row is gone |
| RealtimeLaws.AdmissionDiscardsOnlyBlocked | src/chat/chat.service.ts:212-243 | asking for admission changes no row but an accepted request of a blocked pair, which goes |
| RealtimeLaws.RemovalEndsTheChat | src/chat/chat.service.ts:325-355 | a participant ends an accepted chat: exactly its row is gone and exactly its room empty |
| RealtimeLaws.BlockIsRecorded | src/users/users.service.ts:239-262 | a block succeeds if and only if both are different existing users; exactly the caller's direction is recorded and exactly the rooms of their accepted chats are emptied |
| RealtimeLaws.UnblockIsOneWay | src/users/users.service.ts:264-266 | exactly the caller's own block goes, and one in the other direction stays |
| RealtimeLaws.DeletionTakesItsOwn | src/users/users.service.ts:134-144 | a deleted account takes along its row, its requests, its blocks in both directions and the seats in its chats, and nothing else |
| RealtimeTheorems.CloseExactIffLocal | src/realtime/draw.gateway.ts:366-409 | closing rooms keeps caches exact if and only if all their sockets are on the closing worker |
| RealtimeTheorems.RemovalExactIffLocal | src/realtime/draw.gateway.ts:411-433 | the same for removing one user from a room |
| RealtimeTheorems.StepExactIffLocal | src/realtime/draw.gateway.ts:366-433 | a step keeps all caches exact if and only if it forces out only local sockets |
| RealtimeTheorems.OneWorkerStaysExact | src/realtime/draw.gateway.ts:366-433 | with one worker the caches name exactly the rooms sockets are in, over every run |
| RealtimeTheorems.OneWorkerRelaysExactly | src/realtime/draw.gateway.ts:634-653 | with one worker a stroke reaches exactly the other sockets of the sender's current room |
| RealtimeTheorems.RegistryTracksLatestSocket | src/realtime/draw.gateway.ts:191-312 | both indexes agree, a user's entry is the latest admitted socket, every other connected socket of that user was told to disconnect |
| RealtimeTheorems.EntryChangesOnlyByItsOwnSockets | src/realtime/draw.gateway.ts:278-312 | a user's entry is changed only by an admission of that user or the disconnect of the entry's own socket, so late disconnects of older sockets never erase it |
| RealtimeSafety.StepKeeps | src/chat/chat.service.ts:50-392 | every handler keeps the indexes, the registry, the foreign keys and the room entitlement |
| RealtimeSafety.RunKeeps | src/chat/chat.service.ts:50-392 | so does every run |
| RealtimeServices.Gateway.HandleConnection | src/realtime/draw.gateway.ts:191-276 | does what the connection handler's specification says to the registry and the caches |
| RealtimeServices.Gateway.HandleDisconnect | src/realtime/draw.gateway.ts:278-312 | cleans up the socket, and the user's entry only if it is this socket's |
| RealtimeServices.Gateway.JoinGroup | src/realtime/draw.gateway.ts:436-484 | enters the group's room, after leaving the previous one, if the membership query allows it |
| GroupRooms.JoinGroupAdmitsExactlyMembers | src/chat/chat.service.ts:663-678 | in every reachable state of both halves a connected socket gets into a group's room if and only if its user is a member, so the creator or invited by the creator; it is then in no other room |
| GroupServices.GroupService.GetGroupRoomForMember | src/chat/chat.service.ts:663-678 | the membership query |
| RealtimeServices.Gateway.LeaveChat | src/realtime/draw.gateway.ts:602-631 | leaves the cached room and forgets it |
| RealtimeServices.Gateway.ForceCloseRoom | src/realtime/draw.gateway.ts:366-409 | empties the room and clears the entries of this worker only, in a loop over the sockets |
| RealtimeServices.Gateway.ForceRemoveUserFromRoom | src/realtime/draw.gateway.ts:411-433 | takes the registered socket of the user out of the room |
| RealtimeServices.Gateway.DrawStroke | src/realtime/draw.gateway.ts:633-653 | relays if not rate limited and in a room, to the other members of the cached room |
| RealtimeServices.Gateway.RelayFrom | src/realtime/draw.gateway.ts:655-668 | the relay itself, which is all an emote does |
| RealtimeServices.Gateway.ClearCanvas | src/realtime/draw.gateway.ts:670-693 | the same under the limiter of clears |
| RealtimeServices.ChatService.CreateRequest | src/chat/chat.service.ts:50-118 | refuses, a duplicate of a pending request included, or creates a pending request |
| RealtimeServices.ChatService.RespondToRequest | src/chat/chat.service.ts:134-189 | the recipient's yes accepts, the recipient's no rejects, and a yes after a block discards |
| RealtimeServices.ChatService.CancelRequest | src/chat/chat.service.ts:191-210 | withdraws a pending request of the caller |
| RealtimeServices.ChatService.GetAcceptedRoomForUser | src/chat/chat.service.ts:212-243 | the room of an accepted request for an unblocked participant |
| RealtimeServices.ChatService.JoinChat | src/realtime/draw.gateway.ts:487-586 | admission and entering as one handler |
| RealtimeServices.ChatService.RemoveAcceptedChat | src/chat/chat.service.ts:325-355 | closes the room and removes the request |
| RealtimeServices.ChatService.CloseRoomsBetweenUsers | src/chat/chat.service.ts:357-377 | the loop over both users' accepted chats closes exactly their rooms |
| RealtimeServices.ChatService.CloseAllRoomsForUser | src/chat/chat.service.ts:379-392 | the loop over the user's accepted chats closes exactly those rooms |
| RealtimeServices.UsersService.IsBlocked | src/users/users.service.ts:277-291 | true if and only if one of the two rows exists |
| RealtimeServices.UsersService.BlockUser | src/users/users.service.ts:239-262 | records a new block and closes the pair's rooms; an existing block returns early, as there is then nobody to throw out |
| RealtimeServices.UsersService.UnblockUser | src/users/users.service.ts:264-266 | removes the caller's block only |
| RealtimeServices.UsersService.DeleteAccount | src/users/users.service.ts:134-144 | closes rooms, deletes the row, and everything that cascades |
| RealtimeServices.Database.RemoveUser | src/migrations/1771868434279-InitialSchema.ts:19-36 | the cascades of a deleted user |
| RateLimiterBounds.WindowBound | src/realtime/draw.gateway.ts:774-810 | any half-open interval of k windows admits at most (k + 1) * limit - 1 events of a socket, sweeps interleaved |
| RateLimiterBounds.BoundIsAttained | src/realtime/draw.gateway.ts:774-810 | and, for windows of at least two milliseconds, some run admits exactly that many |
| RateLimiterBounds.RefusedIffWindowFull | src/realtime/draw.gateway.ts:774-810 | an event is refused if and only if the open window has already admitted the limit |
| RateLimiterBounds.QuietSocketIsAdmitted | src/realtime/draw.gateway.ts:774-810 | a socket that offered fewer than limit events within the last window is admitted |
| RateLimiterBounds.StrokesAndClears | src/realtime/draw.gateway.ts:40-45 | in any k seconds fewer than 120 (k + 1) strokes of a socket get through, in any k times five seconds fewer than 5 (k + 1) clears |
| RateLimiterBounds.QuietStrokesAndClears | src/realtime/draw.gateway.ts:40-45 | a stroke is let through if fewer than 120 came within the last second, and a clear if fewer than five came within the last five |
| RateLimiter.SweepUnobservable | src/realtime/draw.gateway.ts:157-184 | with or without sweeps the decisions are the same, and after each event so is the socket's entry |
| RateLimiter.Limiter.IsRateLimited | src/realtime/draw.gateway.ts:774-810 | decides and updates the entry |
| RateLimiter.Limiter.Sweep | src/realtime/draw.gateway.ts:157-184 | the loop drops exactly the entries opened more than two windows ago and leaves the others as they are |
| GroupSafety.OneOwnerPerGroup | src/chat/chat.service.ts:396-414 | each group has exactly one owner row, its creator's |
| GroupSafety.MembershipIsInvited | src/chat/chat.service.ts:501-568 | every member row is backed by an accepted invitation from the owner |
| GroupSafety.PendingIsUniqueAndOutside | src/chat/chat.service.ts:416-499 | at most one pending invitation to a user per group, and never to a member |
| GroupSafety.AcceptingAddsTheMember | src/chat/chat.service.ts:501-568 | accepting a pending invitation always adds exactly its invitee: the branches for a vanished group and a present member are never taken |
| GroupSafety.InvitesOnlyFromCreator | src/chat/chat.service.ts:416-499 | an invitation is recorded if and only if the creator sends it to an existing, unblocked outsider without a pending one |
| GroupSafety.RemovalByCreatorOrSelf | src/chat/chat.service.ts:579-618 | the reply to a removal is success if and only if the membership exists, is not the creator's, and the creator or the member asks |
| GroupLaws.RemovalTakesTheRow | src/chat/chat.service.ts:579-618 | over every run a membership row goes if and only if it exists, is not the creator's, and the creator or the member asks; no other membership, group or invitation changes, and the one removed is refused the room |
| GroupLaws.RemovedStaysOut | src/chat/chat.service.ts:579-678 | over every later run whoever was removed is no member and refused the room, until accepting a new invitation to the group |
| GroupLaws.CreationMakesTheOwner | src/chat/chat.service.ts:396-414 | a new group has its creator as owner and no other member |
| GroupLaws.InvitingRecords | src/chat/chat.service.ts:416-499 | an invitation that goes out is recorded as pending, from the creator to the invitee, and changes nothing else |
| GroupLaws.AnsweringDecides | src/chat/chat.service.ts:501-568 | only the invitee answers, and only a pending invitation: a yes makes a member, a no does not, and nothing else changes |
| GroupLaws.DeletingTakesTheGroup | src/chat/chat.service.ts:620-634 | only the creator deletes a group; exactly its members and its invitations go with it |
| GroupLaws.DeletionTakesItsOwn | src/migrations/1774600000000-AddGroupChatInvitations.ts:17-19 | a deleted user's groups go with all that hangs on them, the user's memberships and invitations elsewhere go too, and everything else stays |
| GroupLaws.RoomIsForMembers | src/chat/chat.service.ts:663-678 | the query tells members, strangers and missing groups apart |
| GroupSafety.RunKeeps | src/migrations/1774500000000-AddGroupChat.ts:13-30 | every run, with deletions and their cascades, keeps all of it |
| GroupServices.GroupService.CreateGroup | src/chat/chat.service.ts:396-414 | group and owner row |
| GroupServices.GroupService.InviteMember | src/chat/chat.service.ts:416-499 | the refusals in the source's order, else a pending invitation |
| GroupServices.GroupService.RespondToGroupInvitation | src/chat/chat.service.ts:501-568 | status and membership |
| GroupServices.GroupService.RemoveMember | src/chat/chat.service.ts:579-618 | refuses in the source's order or removes one membership |
| GroupServices.GroupService.DeleteGroup | src/chat/chat.service.ts:620-634 | the group and what hangs on it |
| GroupServices.GroupService.CascadeUser | src/migrations/1774600000000-AddGroupChatInvitations.ts:17-19 | a deleted user's groups, memberships and invitations go |
| BackupTheorems.AlteredOnlyOnceSaved | src/backup/backup.service.ts:60-133 | at every point of every run, restores in any number of processes, failures anywhere, a restore alters the database only while a stored pre_restore record holds the dump it took beforehand; the step keeps that record and has the replacement in the log |
| BackupTheorems.EveryReplacedDatabaseIsKept | src/backup/backup.service.ts:96-113 | that record survives everything that follows, retention and other restores included |
| BackupTheorems.SuccessfulRestoreBringsBack | src/backup/backup.service.ts:104-117 | a later restore from it that succeeds leaves exactly the dumped contents if and only if no table outside the dump exists when it loads, as when nobody else wrote after it listed the tables |
| BackupTheorems.ReplacedIsKeptIff | src/backup/backup.service.ts:96-117 | over every run the record of a replacement keeps what the database held right before the first step by which the restore altered it, if and only if the last write between the dump and that step, if there was one, left the dumped contents |
| BackupTheorems.DroppedTableIsKeptIff | src/backup/mysql-dump.service.ts:102-136 | whenever a restore drops a table, however late in its clearing, its pre_restore record gives that table back as dropped if and only if the last write to the database by anybody else since the dump, if there was one, left the table as dumped |
| BackupOutcomes.LateWriteIsLost | src/backup/backup.service.ts:96-117 | a run: the application writes while the dump is being stored, and the first drop destroys a database no record of the restore holds |
| BackupOutcomes.WriteAfterOpenIsLost | src/backup/backup.service.ts:104-117 | a run: the same with a write after the download has been opened |
| BackupOutcomes.ReplacedDatabaseCanBeBroughtBack | src/backup/backup.service.ts:60-133 | from every reachable state a process without a restore has a complete one that brings a replaced database back |
| BackupTheorems.DataOnlyNeverClears | src/backup/backup.service.ts:112-114 | restoring a data-only backup drops no table |
| BackupOutcomes.FailedDumpLeavesValidRecord | src/backup/backup.service.ts:167-193 | after a failed dump a periodic record remains that passes its check, and it holds the whole dump if and only if nothing was cut off |
| BackupTheorems.NoRecordDangles | src/backup/mongo-backup.repository.ts:70-98 | no record points to a missing file, nor to another record's, whatever failed and however deletions interleave |
| BackupTheorems.OnlyPeriodicGoEver | src/backup/mongo-backup.repository.ts:197-247 | over any run only full periodic records disappear; all others keep their record and their file's contents |
| BackupTheorems.OnlyTheOutrankedGo | src/backup/mongo-backup.repository.ts:197-247 | if every sweep keeps n, a record disappears only after a moment at which n newer periodic records existed |
| BackupTheorems.SurplusIsTheOutranked | src/backup/mongo-backup.repository.ts:200-206 | the documents past the first keep are exactly the periodic records with keep newer ones |
| BackupCounts.CountIsExactIff | src/backup/mongo-backup.repository.ts:215-246 | over every run, with any number of overlapping sweeps and any order of their calls, a sweep counts its acknowledged record deletions and has removed the records its deletions took out; the numbers are equal if and only if as many deletions succeeded on a record already gone as failed after taking theirs out |
| BackupCounts.AloneCountIsExactIff | src/backup/mongo-backup.repository.ts:215-246 | when no other sweep chose one of its records, the count is exact if and only if none of its deletions failed after its effect |
| BackupOutcomes.LateFailureIsUncounted | src/backup/mongo-backup.repository.ts:215-246 | a run: one record removed, none counted |
| BackupOutcomes.OvertakenIsCounted | src/backup/backup-scheduler.service.ts:36-45 | a run: two processes sweep at once and both count the one record that was removed |
| BackupSafety.StepKeeps | src/backup/mongo-backup.repository.ts:70-98 | each single call, failing or not, keeps file ownership, deletion order, jobs, the running restore and the kept records |
| BackupSafety.RunKeeps | src/backup/mongo-backup.repository.ts:70-98 | so does every run |
| BackupStore.Pass | src/backup/mongo-backup.repository.ts:301-324 | the per-chunk loop yields checksum and size of the concatenated bytes, so chunking does not matter |
| BackupStore.PassValidated | src/backup/mongo-backup.repository.ts:134-179 | accepts if and only if the bytes have the expected checksum and size, after letting all of them through |
| BackupStore.UploadThenDownload | src/backup/mongo-backup.repository.ts:134-179 | what an upload records a download of the same bytes accepts, however both are chunked |
| BackupStore.Repository.StoreBackup | src/backup/mongo-backup.repository.ts:70-98 | the store after a backup, for every way its calls can end |
| BackupStore.Repository.DeleteOldPeriodicBackups | src/backup/mongo-backup.repository.ts:197-247 | with nothing else at work exactly the surplus goes, and the count misses exactly the late failures |
| BackupLaws.SweepComesTo | src/backup/mongo-backup.repository.ts:197-247 | such a sweep leaves a full periodic record if and only if fewer than keep are newer or the call that deletes it fails before its effect, leaves all others as they are, removes exactly the files of records whose deletion was acknowledged and whose own deletion took effect, and reports the number of acknowledged removals |
| BackupStore.Repository.DeleteAll | src/backup/mongo-backup.repository.ts:215-246 | the parallel deletions, their calls in any order that has each record's before its file's, always end the same |
| BackupStore.Repository.DeleteRecord | src/backup/mongo-backup.repository.ts:217-228 | removes one record, which may be gone already, and says so only if the call does not fail |
| BackupRuns.SavingRuns | src/backup/mongo-backup.repository.ts:70-98 | the calls of a backup are a run of the machine |
| BackupRuns.ExitAnywhere | src/backup/backup.service.ts:185-185 | the end of the dump process may fall between any two storing calls without changing where they lead |
| BackupRuns.SweepRuns | src/backup/mongo-backup.repository.ts:197-247 | the deletions of a sweep, one after another, are a run of the machine |
| BackupServices.BackupService.ResolveRestoreTarget | src/backup/backup.service.ts:135-165 | the record asked for, or the newest periodic, or a rolling one, or none |
| BackupServices.BackupService.RunBackup | src/backup/backup.service.ts:167-193 | succeeds if and only if the storing and the dump process both do, whichever ends first, and then the record holds the whole dump |
| BackupServices.BackupService.ClearSchema | src/backup/mysql-dump.service.ts:102-136 | drops every table, or stops at the failing one |
| BackupServices.BackupService.LoadDump | src/backup/mysql-dump.service.ts:50-100 | succeeds if and only if mysql does and the stream passes its check |
| BackupServices.BackupService.RestoreFromBackup | src/backup/backup.service.ts:60-133 | busy if and only if an operation of the process runs, always so while a restore of it is under way; otherwise restored if and only if no call fails and the dump passes its check; the flag is released on every path, and the database is unchanged or held by the new pre_restore record |
| BackupServices.BackupService.RunPeriodicBackup | src/backup/backup.service.ts:33-54 | exclusive, and never touches the database; after success a full periodic record, the new one included, is there if and only if fewer than keep are newer or its deletion fails before its effect, no other record is gone or altered, and a file is gone if and only if its record went by an acknowledged call and its own deletion took effect; unless the backup succeeded nothing is removed; a new record newer than all others holds the dump |
| Rewards.RewardTimeIsConserved | src/users/users.service.ts:212-237 | the milliseconds with rewarded access are as many as were granted in total |
| Rewards.ExpiryNeverDecreases | src/users/users.service.ts:212-237 | a grant never shortens access |
| Rewards.GrantExtendsAccess | src/users/users.service.ts:55-60 | a grant adds exactly its own interval to the times of access |
| Rewards.UserRow.GrantTemporaryDiscoveryAccess | src/users/users.service.ts:212-237 | the new expiry is the granted number of minutes, of 60,000 milliseconds each, after the later of now and the running expiry |
| SubscriptionSafety.EndedMeansUnflagged | src/purchases/subscription-events.service.ts:179-347 | over any run on both platforms an expired or revoked subscription leaves its user without the flag, unless a step loses the flag's update or writes a stale flag back |
| SubscriptionSafety.StepKeepsEndedIff | src/purchases/apple-subscription-events.service.ts:395-463 | a step keeps ended subscriptions unflagged if and only if it neither ends a flagged user's subscription with the second update failing nor saves a raised flag over an ended one |
| SubscriptionSafety.UndisturbedSaveIsHarmless | src/users/users.service.ts:102-132 | a save of a user row whose flag did not change since it was loaded changes nothing here |
| SubscriptionSafety.StaleSaveRevivesFlag | src/users/users.service.ts:124-132 | a run: a profile update loads the row, the subscription expires, the update saves, and the flag is up again |
| SubscriptionSafety.StepKeepsFlaggedIff | src/purchases/subscription-events.service.ts:222-266 | a step keeps active subscriptions flagged if and only if it is no Google renewal of an unflagged user's row, no activation whose second update fails, and no save of a lowered flag over an active one |
| SubscriptionSafety.SnapshotImpliesFlag | src/users/users.service.ts:46-80 | without such steps the snapshot grants subscription access to flagged users only |
| SubscriptionSafety.AppleAloneLeavesNoneUnflagged | src/purchases/apple-subscription-events.service.ts:253-488 | an iOS-only run without failing updates and row saves has no such step |
| SubscriptionSafety.RecoveredAndroidIsUnflagged | src/purchases/subscription-events.service.ts:314-322 | an expired Android subscription that recovers gives access by time while the flag stays down |
| Subscriptions.LatestReceipt | src/purchases/purchases.service.ts:260-281 | filter, sort and first pick a usable receipt of the latest expiry, if there is one |
| SubscriptionLaws.ReceiptGivesAccess | src/purchases/purchases.service.ts:102-339 | verification changes anything if and only if the user exists and the store's answer is good: a paid Google purchase, or an Apple receipt or signed transaction for the product that has not expired; then the user has subscription access at exactly the times before the expiry the answer confirms, the flag is up, the row carries the answer's product, platform, start, renewal, id and token, and nobody else's row or flag changes |
| Subscriptions.PurchaseTables.UpsertVerified | src/purchases/purchases.service.ts:298-339 | succeeds if and only if the user exists and the answer confirms a purchase of the product, an Apple one lasting beyond now; one row per user, active, and the flag raised; nothing on refusal |
| Subscriptions.PurchaseTables.HandleAppleNotice | src/purchases/apple-subscription-events.service.ts:253-488 | each notification's effect on row and flag |
| Subscriptions.PurchaseTables.HandleGoogleNotice | src/purchases/subscription-events.service.ts:179-347 | each notification's effect on row and flag |
| SubscriptionLaws.AppleNoticeMeans | src/purchases/apple-subscription-events.service.ts:253-488 | for each App Store notification which of end, status, renewal and flag it sets and to what; everything else stays |
| SubscriptionLaws.GoogleNoticeMeans | src/purchases/subscription-events.service.ts:179-347 | the same for each Google Play notification; none raises the flag |
| SubscriptionLaws.RenewalMovesAccess | src/purchases/subscription-events.service.ts:222-266 | after a renewal there is subscription access at exactly the times before the new end |
| AppleWebhook.ProcessedAtMostOnce | src/purchases/apple-subscription-events.service.ts:150-199 | for every interleaving of deliveries no UUID is processed twice |
| AppleWebhook.InterleavedIsSerial | src/purchases/apple-subscription-events.service.ts:150-199 | every interleaving leaves the store as handling the logged deliveries one by one would |
| AppleWebhook.DuplicatesAreInert | src/purchases/apple-subscription-events.service.ts:150-163 | a sequence of deliveries with duplicates and failures ends in the same state as its first recorded occurrences |
| AppleWebhook.ProcessableIffOpen | src/purchases/entities/apple-notification.entity.ts:18-20 | a notification can still be processed if and only if its UUID is unrecorded or its recorder is still to process it |
| AppleWebhook.FailedProcessingCloses | src/purchases/apple-subscription-events.service.ts:185-203 | a failing processing step closes the notification all the same |
| AppleWebhook.Handler.HandleWebhook | src/purchases/apple-subscription-events.service.ts:131-204 | one delivery from start to end, and the reply: accepted for a duplicate, or when recorded and processing ends without an error, which includes having nothing to apply and every failing renewal |
| AppleWebhook.DeliveryMeans | src/purchases/apple-subscription-events.service.ts:150-294 | the first delivery whose record lands applies the notification to the row that was found, in full or its first update only; a recorded one, or one whose record does not land, leaves rows and flags alone |
| AppleWebhook.ReturningHasFullEffect | src/purchases/apple-subscription-events.service.ts:206-294 | processing that ends without an error has had its full effect, unless it was a renewal |
| AppleWebhook.FailedRenewalIsAcknowledged | src/purchases/apple-subscription-events.service.ts:371-376 | a renewal whose update fails is acknowledged and changes nothing |
| PushTokens.TableIsInjectiveMap | src/notifications/entities/push-token.entity.ts:15-16 | a table with both unique indexes represents an injective map from user and provider to token |
| PushTokens.TableRefinesOwners | src/notifications/notifications.service.ts:68-141 | over any run of registrations, deactivations, user deletions and deletions of invalid tokens the table represents what the same run computes on the map, and both indexes hold |
| PushTokens.RegistrationMovesTheToken | src/notifications/notifications.service.ts:68-126 | registering is dropping any holder of the token and then setting the user's token |
| PushTokens.RegistrationKeepsIndexes | src/notifications/notifications.service.ts:82-96 | both unique indexes hold between the delete and the save, and after |
| PushTokens.BetweenDeleteAndSave | src/notifications/notifications.service.ts:82-91 | a crash in between costs the user the old token and nobody anything else |
| PushTokens.DeactivationDropsOwnToken | src/notifications/notifications.service.ts:128-141 | drops the token if it is the caller's, else nothing |
| PushTokens.InvalidationDropsFailedTokenIff | src/notifications/notifications.service.ts:314-323 | deleting by id drops exactly the failed token if and only if the row still holds it, or the row is gone and so is the token |
| PushTokens.RepointedTokenIsLost | src/notifications/notifications.service.ts:314-323 | a row re-pointed while a push is in flight loses its valid token |
| PushTokens.PushTokenTable.RegisterToken | src/notifications/notifications.service.ts:68-126 | the three branches, and that no save is refused by an index |
| PushTokens.PushTokenTable.DeactivateToken | src/notifications/notifications.service.ts:128-141 | deletes the caller's row with that token |
| PushTokenMigration.ExactlyTheGreatestStays | src/migrations/1774302000000-EnforceSinglePushTokenPerUserProvider.ts:8-17 | of each user and provider's rows exactly the greatest by update time and id stays, unchanged |
| PushTokenMigration.GreatestMeans | src/migrations/1774302000000-EnforceSinglePushTokenPerUserProvider.ts:12-16 | greatest means that each other row of the same user and provider was updated before, or at the same time under a smaller id |
| PushTokenMigration.PrecedesIsLexicographic | src/migrations/1774302000000-EnforceSinglePushTokenPerUserProvider.ts:12-16 | ids are compared by their first difference |
| PushTokenMigration.MigrationMakesIndexHold | src/migrations/1774302000000-EnforceSinglePushTokenPerUserProvider.ts:19-21 | the index can be created, and nobody loses the last token |
| PushTokenMigration.Migration.Up | src/migrations/1774302000000-EnforceSinglePushTokenPerUserProvider.ts:8-17 | deleting joined rows one at a time, in any order, gives the same table as deleting them at once |
| Sessions.IncrementEndsEarlierTokens | src/auth/auth.service.ts:748-765 | after an increment no token signed from an earlier read validates, then or later, as long as no save writes back a row read before an increment |
| Sessions.ValidTogetherReadTogether | src/auth/auth.service.ts:748-765 | under the same condition two tokens of one user that validate together were read with no increment between, also those minted at email confirmation |
| Sessions.TokenLastsUntilIncrement | src/auth/jwt.strategy.ts:28-46 | under the same condition a token validates if and only if its user exists, is activated and not banned, and nothing was incremented since its read |
| Sessions.SaveKeepsVersionIffUndisturbed | src/auth/auth.service.ts:147-162 | saving a loaded row keeps the version if and only if no increment landed since it was loaded |
| Sessions.DisturbedSaveRevivesSession | src/users/users.service.ts:124-132 | a run of the code's own handlers: a login mints a token, a profile update loads the row, a second login ends the first session, the update saves its row, and the first token validates again |
| Sessions.AuthService.Validate | src/auth/jwt.strategy.ts:28-46 | the check of one request |
| Sessions.AuthService.IssueSingleSessionAccessToken | src/auth/auth.service.ts:748-765 | increment, read, sign |
| Sessions.AuthService.ConfirmEmail | src/auth/auth.service.ts:113-165 | activation and the token it mints |
| PasskeyRuns.AtMostFive | src/auth/auth.service.ts:539-587 | over any run a user has at most five passkeys |
| PasskeyRuns.PositiveCountersNeverRepeat | src/auth/auth.service.ts:719-741 | no positive signature counter is accepted twice for a credential, as section 6.1.1 of Web Authentication Level 2 asks |
| PasskeyLaws.AcceptedWereVerified | src/auth/auth.service.ts:703-741 | over every run each accepted counter comes from a login of that passkey whose assertion was verified |
| PasskeyRuns.LastPasskeyStays | src/auth/auth.service.ts:801-828 | a user without a password who has a passkey never drops to none |
| Passkeys.RegistrationKeepsTheNewest | src/auth/auth.service.ts:539-587 | after a registration at most five passkeys remain, the new one among them unless five others of the user are at least as new, nobody else loses any, and whichever recently used one was dropped had five that stayed and are no older |
| Passkeys.FiveNewestStay | src/auth/auth.service.ts:565-587 | capping leaves all of up to five passkeys, and exactly five of more |
| Passkeys.DroppedAreOldest | src/auth/auth.service.ts:565-587 | whatever capping drops is no newer than whatever it keeps, and older when creation times differ |
| Passkeys.PasskeyService.FinishPasskeyRegistration | src/auth/auth.service.ts:482-599 | insert, cleanup of unused ones, cap, with ties between creation times broken by the query |
| Passkeys.PasskeyService.FinishPasskeyLogin | src/auth/auth.service.ts:650-746 | accepts a verified response with a grown counter and stores it |
| PasskeyLaws.LoginAcceptsIff | src/auth/auth.service.ts:650-746 | a login succeeds if and only if the passkey is known, the assertion verified, and the counter greater than the stored one or both zero; then exactly that row changes, to the received counter and now, and otherwise none does |
| PasskeyLaws.DeletionTakesOne | src/auth/auth.service.ts:801-828 | a passkey is deleted if and only if it is the caller's and, for a user known to have no password, not the only one; exactly it goes |
| PasskeyLaws.RegistrationCleansUp | src/auth/auth.service.ts:482-599 | a registered passkey is refused a second time; otherwise the new row has the given key, counter and time, each of the user's passkeys unused for more than 7,776,000,000 milliseconds goes, and another one of that user only when five stay |
| Passkeys.PasskeyService.DeleteCredential | src/auth/auth.service.ts:801-828 | deletes own passkeys, except the last one of a user without a password |
| Csv.ExportReadsBack | src/admin/admin.service.ts:316-328 | a reader of section 2 of RFC 4180, with LF between records, recovers exactly the exported fields |
| Csv.QuotedIffNeeded | src/admin/admin.service.ts:316-321 | a field is printed as it is if and only if it has no comma, quote or line feed, and between quotes otherwise |
| Csv.ExportIsInjective | src/admin/admin.service.ts:316-328 | different tables export differently |
| Csv.ExportReads | src/admin/admin.service.ts:316-328 | for both readers, when an export is read back and that it is then the table |
| Csv.StrictReaderNeedsQuotedReturns | src/admin/admin.service.ts:322-328 | a reader that refuses bare carriage returns succeeds if and only if every one of them is in a quoted field |
| AdminName.FindDisplayName | src/cli/add-admin.ts:61-69 | terminates with an untaken name of the smallest suffix, which is at most the number of taken names; it fits 30 characters if and only if some free candidate does, always so when fewer than 1000 are taken |
| AdminName.BaseIsTheStart | src/cli/add-admin.ts:61-61 | the base is the start of the address up to its first @, at most 27 characters of it |
| AdminName.CandidateReads | src/cli/add-admin.ts:66-69 | a name tried is the base, followed by nothing or by its suffix in decimal digits without leading zero |
| AdminName.ValueOfDecimal | src/cli/add-admin.ts:68-68 | a decimal suffix reads back as its number |
| AdminName.CandidatesDiffer | src/cli/add-admin.ts:66-69 | different suffixes give different names |
| AdminName.FullBaseFitsBelowThousand | src/cli/add-admin.ts:61-69 | a full base leaves room for the suffix if and only if it is below a thousand |
| AdminName.ThousandUsersCanOverflow | src/cli/add-admin.ts:61-69 | some thousand taken names leave only candidates longer than 30 characters |

## Left out

- Handlers of the gateway, chat and users services are atomic here: races between the awaits of two handlers are not modelled.
- Row, socket, file, record and delivery ids are taken as never reused; creation times that a query sorts by are distinct where a result says so.
- Socket.IO takes a disconnected socket out of its rooms before the disconnect handler runs; Redis keys are reduced to the two socket indexes, without time-to-live and without the room shown in their metadata.
- RealtimeServices.Gateway.JoinGroup: group rooms have no invariant over runs, because account deletion closes 1-on-1 rooms only and removing a member evicts the registered socket only.
- Notifications sent to users (peers joined, requests, invitations, forced leaves), saved chats, peer lookup and push payloads.
- Whole-row saves: TypeORM's `save` of a loaded row is taken to write back every column it loaded whose value differs from the row; results in Sessions and SubscriptionSafety rest on that.
- JWT signing, WebAuthn, Apple and Google verification, bcrypt, challenges: their verdicts are parameters.
- Subscriptions.LatestReceipt: expiry times are integers; the parsing of their text is not modelled.
- Subscriptions: which of several rows with one transaction or purchase token a lookup returns is arbitrary, but in AppleWebhook it is a function of the store.
- `unlockDiscoveryAccess`, which raises the flag without a subscription and has no caller.
- The rolling path of a backup (`upsertRollingBackup`): no caller passes a rolling key. Rolling records may exist from the start.
- BackupServices.BackupService.RestoreFromBackup: nobody else uses the database or the store during the call; in the machine the application, backups, sweeps and the restores of other processes do, at any time.
- mysql and mysqldump: loading a full dump is taken to recreate the dumped tables, as `--add-drop-table` asks, and to leave other tables alone; a load is one step, and of a data-only dump or a failing load nothing is assumed.
- A write that falls after a restore's first change: for a table still to be dropped BackupTheorems.DroppedTableIsKeptIff says when the record has it; what is written after its table's turn, or to a table created after the listing, is overwritten or kept by the load and in no record.
- A mysql process is taken to have stopped when its load fails; connection set-up, index creation and the timeout of the readability check are failures of the call they belong to.
- AppleWebhook.Handler.HandleWebhook: processing is one step with four possible outcomes (all updates, the first only, none, a failing lookup).
- PushTokens.PushTokenTable.RegisterToken: two registrations do not interleave.
- PushTokenMigration: ids are compared as strings of lower-case hexadecimal digits, by code unit.
- AdminName.FindDisplayName: the address comes in lower case already; names compare by code unit, without the case-insensitive collation of the column.
- Csv.ExportReadsBack: the selection and formatting of user columns is left out; a row is any non-empty sequence of fields.
- Search and listing queries, reports, statistics, app configuration, bans and password resets: only easy members.
- Rounding of MySQL datetimes and clock skew between processes.
