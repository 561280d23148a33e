# Verified model of the chat server

A Dafny model of the in-memory chat server and its message store: group membership, offline
replay of direct messages, the message tables, notifications, pins, and the script that guards
the database schema against drift. `dafny verify dfyconfig.toml` checks everything.

## How the server is modelled

The server is single-threaded. Code between two awaits is one step; what follows an await is a
suspended continuation that may resume at any later time, in any order. Each protocol is a state
machine (`State`/`Event`/`Enabled`/`Next`), and the main results quantify over all its runs.

| files | what they hold |
|---|---|
| `GroupModel`, `GroupAccess`, `GroupInvariants`, `GroupSteps`, `GroupRuns`, `GroupLags`, `GroupAdmins`, `GroupRoles`, `GroupRooms` | the group protocol with any number of suspended leaves and kicks; its invariants and run theorems |
| `Namespace`, `GroupServer`, `UserSockets` | the group handlers and socket stores as classes that update records, maps and sockets in place; every method computes exactly its step of `GroupModel` |
| `DmDelivery`, `DmDeliverySteps`, `DmDeliveryRuns`, `DmAddressees`, `DmRaces`, `DmWitnesses` | connect, disconnect, send (stamp, persist, broadcast) and unsend; delivery over whole runs, exactly when a message is lost or doubled, and runs in which it is |
| `MessageTable`, `RowOrder`, `History`, `LiveHistory`, `Hydration`, `MessageViews`, `MessageLookups`, `ReplyContexts`, `Reactions`, `MessageRaces` | the two tables and their statements; paging, batched hydration, lookups after a statement, replies, reactions, checks that may be out of date when they are acted on |
| `MessageStore`, `MessageHandlers` | the message store as a class, and the handlers on messages and reactions run to completion |
| `Notifications`, `NotificationStore` | the capped list against the history of events; the store with rows marked in place |
| `Pins`, `PinHandlers` | the pin lists and the clients that follow them; the store and its handlers |
| `ConversationIds` | direct-message ids and the rooms they lead to |
| `SchemaLines`, `BraceBlocks`, `SchemaDrift` | the line normaliser, the block extractor, the verdict |
| `Collections`, `JsStrings`, `Standing` | arrays of ids, maps of sets, strings, and facts that events give and take |

Where a method is proved against a specification function (`Abs() == ...`, `db == Execute(...)`),
the properties of that function are the lemmas of the other rows.

### Assumptions

- Generated ids are fresh, user ids are not empty, a socket id is never open twice.
- The clock does not go back. It may stand still, unless a statement asks for a strict clock.
- This server is the only writer of the tables, and each Prisma call is one atomic statement. A
  table scan without an order returns rows in a stable order.
- Socket.IO drops a closed socket from its rooms in the step that runs `removeUserSocket`, and a
  client handles events in the order in which they were emitted to it.
- `NOT senderId = u` is not true of a null sender, as in SQL.
- Among rows of one time, `ORDER BY id` compares ids character by character. A database whose collation
  orders ids otherwise lists such rows in another order.

### What the code does, where one might expect something else

- `await autoDeleteIfTooSmall` suspends even when it resolves to `false`. Between a resumed leave
  or kick and its `group:updated`, the other members' clients lag the record, by the departed user
  only (`ReplicasAgree`); which of them do, and until when, is `LagsAreDecided`, and that it happens
  `CopiesCanLag`.
- `must_transfer_admin` looks at the admin list before the suspension only. Two admins who leave at
  once can leave a group without any (`TwoLeaversOrphanAGroup`); exactly when the suspended
  removals can do so is `OrphaningExactly`, and which runs do so, for good, `AdminlessExactly`.
- An edit that passed its check may be written after an unsend, and then gives the unsent message a
  text again (`EditCanLandLate`, `BlankExactly`). A reaction can be written late in the same way
  (`ReactionCanLandLate`, `GainsInRunsExactly`).
- A direct message stamped in the millisecond in which its absent recipient left is not replayed,
  since the replay asks for strictly newer rows (`TieCanLose`; `DeliveredExactlyOnce` has exactly this
  exception). When handlers interleave, a message can also be lost or delivered twice (`SendCanBeLost`,
  `SendCanBeDoubled`); exactly when is `LostExactly` and `DoubledExactly`.
- A history cursor of 0 counts as no cursor (`ZeroCursorRestarts`). Rows as old as the oldest row
  of a page are skipped by the next one (`TiedRowIsMissed`; exactly when is `MissedRowsExactly`, and
  `MissedMessagesExactly` where messages are edited or unsent meanwhile).
- `ON DELETE SET NULL` reaches replies of every conversation; the comment at message.store.ts:226
  mentions those of the same conversation only.
- For a malformed direct-message id, `broadcast` goes to the conversation's room and
  `broadcastToConversation` nowhere (`RoomsAgreeExactly`), so that whoever views its pins falls
  behind (`DeafViewFallsBehind`).
- The drift guard compares normalised lines, not bytes. It counts braces in comments too, so that a
  comment line shows somewhere unless its braces balance (`HiddenExactly`, `BraceInCommentCounts`),
  and it reads `a/` followed by a comment as `a` (`CommentDoesNotShowExactly`).

## Model

| member | source | states |
|---|---|---|
| GroupRuns.MembershipIsConsistent | src/feature/chat/handlers/group.handler.ts:86-326 | at every point of every run, with any suspended leaves and kicks: `groupsByUser` is the exact inverse of the stored groups' member lists without empty sets; a stored group has at least 3 distinct members, and its admins, muted and blocked are duplicate-free subsets of them |
| GroupRuns.ReplicasAgree | src/feature/chat/handlers/group.handler.ts:56-244 | each client holds a copy of exactly the stored groups its user belongs to; the copy is the record, except while a leave or kick waits at `autoDeleteIfTooSmall`, and then it differs only by users who have left |
| GroupRuns.ReplicasEqualWhenQuiescent | src/feature/chat/chat.handler.ts:33-44 | when no such wait is pending, a client's whole view equals its user's part of the store, however late it connected |
| GroupLags.LagsAreDecided | src/feature/chat/handlers/group.handler.ts:181-195 | at every point of every run, a given client's copy of a given group differs from the record if and only if some resumed leave or kick took another member out while the group survived, and since then the socket has not closed, the group has not been broadcast or deleted, and the client's own user has not left |
| GroupLags.ViewsAgreeExactly | src/feature/chat/handlers/group.handler.ts:56-64 | so a client's whole view is its user's part of the store if and only if that holds of no group |
| GroupLags.LagsChangeExactly | src/feature/chat/handlers/group.handler.ts:86-326 | what one event, of whatever kind and about whatever group, does to the lag of one copy |
| GroupRuns.LagAppearsExactly | src/feature/chat/handlers/group.handler.ts:181-195 | the step that starts a lag, for all clients together: where no copy of the group lags, a resumed removal makes one lag if and only if it takes a member out of a group of more than three and another member is online |
| GroupRuns.CopiesCanLag | src/feature/chat/handlers/group.handler.ts:193-195 | from an empty server, a run in which a copy lags, for any group of four or more |
| GroupRuns.RoomsAreExact | src/feature/chat/handlers/group.handler.ts:30-54 | as long as no client moves itself into or out of the room of group c, whatever other rooms it joins or leaves, that room holds exactly the open sockets of the group's unblocked members, and none once the group is deleted |
| GroupRooms.RoomsAreDecided | src/feature/chat/handlers/room.handler.ts:5-15 | over every run, `chat:join` and `chat:leave` included, a socket is in a group's room if and only if some event put it there and none has taken it out since |
| GroupRooms.RoomsChangeExactly | src/feature/chat/handlers/group.handler.ts:86-326 | one step puts in and takes out exactly the sockets its event is about |
| GroupRuns.GroupsOnlyShrink | src/feature/chat/handlers/group.handler.ts:160-244 | conservation over runs: members lost are exactly the departures, nobody joins, a deleted id is never stored again |
| GroupRuns.DeparturesAreBounded | src/feature/chat/handlers/group.handler.ts:106-115 | a group of n members survives at most n-3 departures, and the next dissolves it in the same step |
| GroupRuns.RecordEvolves | src/feature/chat/handlers/group.handler.ts:86-115 | one step: a stored group ends if and only if it goes down to two members or an admin deletes it |
| GroupRuns.StaleRemovalIsHarmless | src/feature/chat/handlers/group.handler.ts:181-195 | resuming a removal whose group is gone or whose target has already left changes no stored group, no index entry and no copy, and no room unless a socket of the target had moved itself into this one |
| GroupAccess.RequestsTakeEffect | src/feature/chat/handlers/group.handler.ts:160-326 | a leave takes effect exactly for a member who is not the only admin among several members, a kick exactly for an admin and another member, a deletion exactly for an admin; a promotion, mute or block by anyone but an admin, or of anyone but a member, changes nothing at all |
| GroupAccess.CreateAnswers | src/feature/chat/handlers/group.handler.ts:126-134 | three distinct users or more, and a trimmed name of at most sixty characters: each answer if and only if |
| GroupAccess.MayLeaveMeans | src/feature/chat/handlers/group.handler.ts:168-174 | in a well-formed group, a member may leave if and only if they are no admin or there is another one |
| GroupAccess.RemovalsWereAskedFor | src/feature/chat/handlers/group.handler.ts:160-213 | in every run, each suspended removal goes back to a leave that its target asked for when they might, or a kick by an admin of another member |
| GroupAccess.RecordsKeepTheirOrigin | src/feature/chat/handlers/group.handler.ts:135-146 | in every run, each record, stored or not, has the id, name, creator and time of an earlier request that was allowed, and an unnamed group is named after its first three members |
| GroupRoles.RolesAreExactly | src/feature/chat/handlers/group.handler.ts:123-313 | a user is a member, an admin, muted or blocked in a group if and only if some event gave the role and none has taken it back since, over every run |
| GroupRoles.RolesChangeExactly | src/feature/chat/handlers/group.handler.ts:246-313 | one step gives and takes exactly the roles its event is about, and only when a user on the admin list asks about a user on the member list |
| GroupAdmins.OneRemovalAtATimeKeepsAdmins | src/feature/chat/handlers/group.handler.ts:160-244 | while at most one user of the group is the target of suspended removals, a stored group has an admin, whatever happens in other groups |
| GroupAdmins.SafeRunsKeepAdmins | src/feature/chat/handlers/group.handler.ts:168-226 | more generally, when each removal from the group starts while another of its admins is not targeted |
| GroupAdmins.SafeStartKeepsAdmin | src/feature/chat/handlers/group.handler.ts:168-313 | "some admin is not about to be taken out" is stable under every event, promote, mute, block and delete included |
| GroupAdmins.ChecksGiveSafeStart | src/feature/chat/handlers/group.handler.ts:168-213 | the handlers' own checks imply a safe start when no other target is suspended |
| GroupAdmins.OrphaningExactly | src/feature/chat/handlers/group.handler.ts:181-195 | the suspended removals can leave a stored group without an admin if and only if every admin is a target and at least three members are not admins |
| GroupAdmins.AdminlessExactly | src/feature/chat/handlers/group.handler.ts:181-186 | at every point of every run, a group has no admin if and only if some earlier resumed removal took out its only one: nothing else takes the last admin, and nothing gives a group one again |
| GroupAdmins.TwoLeaversOrphanAGroup | src/feature/chat/handlers/group.handler.ts:160-198 | from an empty server, a run that does so for any group of five or more |
| GroupSteps.NextKeepsInv | src/feature/chat/handlers/group.handler.ts:117-326 | every event keeps the whole invariant, and every exact room exact unless a client moves itself into or out of it |
| GroupSteps.ResumeKeepsInv | src/feature/chat/handlers/group.handler.ts:181-195 | so does resuming a suspended leave or kick, also on a record that is no longer stored |
| GroupSteps.NewGroupIsWellFormed | src/feature/chat/handlers/group.handler.ts:126-146 | a created group's lists satisfy the record invariant and its creator is its admin |
| GroupModel.UniqueMembers | src/feature/chat/handlers/group.handler.ts:126-128 | the creator and the named users, non-empty, each once |
| Collections.DedupKeepsOrder | src/feature/chat/handlers/group.handler.ts:126-128 | and in the order in which they were named |
| JsStrings.TrimExactly | src/feature/chat/handlers/group.handler.ts:132 | trimming takes white space off both ends, and all of it |
| JsStrings.WhiteSpaceIs | scripts/check-schema-drift.mjs:44 | which characters are white space to `trim` and `\s` |
| GroupServer.Server.HandleCreate | src/feature/chat/handlers/group.handler.ts:123-158 | min_members if and only if fewer than three distinct users are named, created if and only if three or more are and the trimmed name has at most sixty characters; then the store, index, rooms and clients are those of the create step |
| GroupServer.Server.EnterAll | src/feature/chat/handlers/group.handler.ts:148-151 | the loop that indexes each member and moves their sockets into the room |
| GroupServer.Server.HandleLeave | src/feature/chat/handlers/group.handler.ts:160-175 | each answer if and only if the record's lists call for it, and which record the handler goes on to hold |
| GroupServer.Server.HandleKick | src/feature/chat/handlers/group.handler.ts:200-214 | likewise for a kick: only an admin, only another member |
| GroupServer.GroupRecord.Strike | src/feature/chat/handlers/group.handler.ts:181-186 | the four list assignments strike exactly the target |
| GroupServer.Server.ResumeRemoval | src/feature/chat/handlers/group.handler.ts:221-241 | from the resumption to the second await, on the record that was held, stored or not |
| GroupServer.Server.ResumeUpdate | src/feature/chat/handlers/group.handler.ts:193-196 | the broadcast after the second await |
| GroupServer.Server.DeleteGroup | src/feature/chat/handlers/group.handler.ts:86-104 | removes the record, the index entries, the room memberships and the copies, in one step |
| GroupServer.Server.ForgetAll | src/feature/chat/handlers/group.handler.ts:97-101 | its loop, for any order of the users |
| GroupServer.Server.BroadcastGroupUpdated | src/feature/chat/handlers/group.handler.ts:56-64 | members and room are told the current record; those told twice end as if told once |
| GroupServer.Server.HandlePromote | src/feature/chat/handlers/group.handler.ts:246-263 | each answer if and only if the record's lists call for it, on any refusal nothing changes, else the promote step |
| GroupServer.Server.HandleMute | src/feature/chat/handlers/group.handler.ts:265-287 | likewise, and the mute step |
| GroupServer.Server.HandleBlock | src/feature/chat/handlers/group.handler.ts:289-313 | likewise, and the block step with the room moves |
| GroupServer.Server.HandleDelete | src/feature/chat/handlers/group.handler.ts:315-326 | answers ok if and only if an admin asks, and equals the delete step up to its database call |
| GroupServer.Server.AddUserToGroup | src/feature/chat/store/group.store.ts:29-36 | gets or creates the user's set and adds the group |
| GroupServer.Server.RemoveUserFromGroup | src/feature/chat/store/group.store.ts:38-46 | removes the group and drops an emptied set |
| GroupServer.Server.RejoinUserGroups | src/feature/chat/chat.handler.ts:33-44 | the new socket gets a copy of each of its user's groups and the rooms of those where they are not blocked |
| GroupServer.Server.HandleConnect | src/feature/chat/chat.handler.ts:46-56 | equals the connect step; reports whether the user had no socket |
| GroupServer.Server.HandleDisconnect | src/feature/chat/chat.handler.ts:58-60 | equals the disconnect step, and stamps the last visit exactly when it was the user's last socket |
| Namespace.Nsp.Close | src/feature/chat/store/user-sockets.store.ts:18-26 | the closed socket leaves the index and the namespace together |
| Namespace.Nsp.MoveGroupRoom | src/feature/chat/handlers/group.handler.ts:30-54 | exactly the user's open sockets move |
| Namespace.Nsp.EmitToUsers | src/feature/chat/handlers/group.handler.ts:58-60 | the clients of exactly the listed users are told, once in effect |
| UserSockets.UserSocketStore.AddUserSocket | src/feature/chat/store/user-sockets.store.ts:4-16 | adds the socket; `wasEmpty` if and only if the user had none |
| UserSockets.UserSocketStore.RemoveUserSocket | src/feature/chat/store/user-sockets.store.ts:18-26 | removes it; sets the last visit exactly when it was the user's last |
| Collections.BucketsDetermineMap | src/feature/chat/store/group.store.ts:38-46 | an index without empty sets is determined by its pairs |
| DmAddressees.OnlyParticipantsAreSent | src/feature/chat/util/broadcast.ts:3-31 | over any run, a message was sent live only to its sender and to users whom its conversation's id names, and on connection only to a user whom it names and who did not send it |
| DmDeliveryRuns.DeliveredExactlyOnce | src/feature/chat/chat.handler.ts:20-31 | with handlers that run to completion: a direct message reaches its recipient at most once over any run of connects, disconnects, extra sockets, sends and unsends; an undeleted one exactly once if and only if they are online or have been since, and its send was not stamped while they were away and no later than they left |
| DmDeliveryRuns.TiedExactly | src/feature/chat/store/user-sockets.store.ts:18-26 | the messages that the history calls tied are exactly those with such a stamp |
| DmDeliveryRuns.StrictClockLosesNothing | src/feature/chat/chat.handler.ts:52-74 | with a strict clock: once online, the recipient has every undeleted message exactly once; while away, exactly those no newer than their last visit |
| DmDeliveryRuns.SendDeliversLive | src/feature/chat/handlers/message.handler.ts:45-62 | a send reaches an online recipient at once and leaves the message pending for an absent one |
| DmDeliveryRuns.NextConnectReplays | src/feature/chat/store/message.store.ts:143-162 | the next connection from no socket delivers a pending message once, unless it was unsent |
| DmRaces.UnsentIsFinal | src/feature/chat/store/message.store.ts:147-155 | over any run that follows an unsend, no replay holds the message any more, and it is delivered live only if its own broadcast was already suspended and finds the recipient online |
| DmRaces.LostExactly | src/feature/chat/handlers/message.handler.ts:45-62 | in every run, an undeleted message is broadcast, undelivered and beyond any later replay if and only if its broadcast came while the recipient was away, had left no earlier than the message's time, and had had no replay of it |
| DmRaces.DoubledExactly | src/feature/chat/handlers/message.handler.ts:58-62 | in every run, a message has been delivered twice if and only if its broadcast found the recipient online after a replay had held it; never more often |
| DmWitnesses.SendCanBeLost | src/feature/chat/handlers/message.handler.ts:45-62 | a run with a strict clock that loses the message, for any recipient and any message that is no reply, of time 2 or later |
| DmWitnesses.SendCanBeDoubled | src/feature/chat/handlers/message.handler.ts:58-62 | a run with a strict clock that delivers the message twice, for any such message of time 1 or later |
| DmWitnesses.TieCanLose | src/feature/chat/store/message.store.ts:147-155 | a run of handlers run to completion that loses the message to equal times, for any such message |
| DmDeliveryRuns.LossNeedsARace | src/feature/chat/handlers/message.handler.ts:45-62 | which race a loss takes, sends split at their awaits and a strict clock: the recipient's last socket closed between stamp and broadcast |
| DmDeliveryRuns.DuplicatesNeedARace | src/feature/chat/handlers/message.handler.ts:58-62 | which race a double delivery takes: the recipient came back between persist and broadcast |
| DmDeliverySteps.NextKeepsInv | src/feature/chat/handlers/message.handler.ts:45-62 | every event keeps the delivery invariant |
| DmDelivery.PendingExactly | src/feature/chat/store/message.store.ts:147-161 | a replay holds exactly the undeleted direct messages of its user's own conversations, newer than the last visit and sent by someone else, by time and id, and nobody else's |
| DmDelivery.PendingForRecipient | src/feature/chat/store/message.store.ts:147-161 | a recipient's replay holds a message to them if and only if it is undeleted and newer than their last visit |
| DmDelivery.Bump | src/feature/chat/chat.handler.ts:28-30 | one delivery is counted for exactly the users and messages reached |
| MessageStore.ConnectUser | src/feature/chat/chat.handler.ts:46-74 | a user's first socket is sent exactly the messages of their own direct conversations since their last visit that someone else sent and has not unsent, each once, oldest first; a further one nothing |
| MessageStore.EmittedAreReplayed | src/feature/chat/chat.handler.ts:20-31 | what is emitted is what the delivery model counts |
| MessageStore.Store.FindMessage | src/feature/chat/store/message.store.ts:100-109 | found if and only if there is a row with the id in the conversation; then shown with every field of it, all its reactions and the reply it may quote |
| MessageStore.Store.GetHistory | src/feature/chat/store/message.store.ts:111-136 | the newest messages the cursor leaves, oldest first, each shown field by field and as `findMessage` gives it; a cursor exactly when more are left |
| MessageStore.Store.GetDirectMessagesSince | src/feature/chat/store/message.store.ts:143-162 | exactly the messages owed to the user, each once, oldest first, field by field |
| MessageStore.Store.FindParent | src/feature/chat/store/message.store.ts:174-181 | the link to a parent that exists at the first await |
| MessageStore.Store.CreateMessage | src/feature/chat/store/message.store.ts:183-196 | at the second await, on a table that may have changed: stored if and only if the id is free and the parent, if linked, still exists; then the row has every field of the message |
| MessageStore.Store.AddMessage | src/feature/chat/store/message.store.ts:166-197 | both with nothing in between: fails exactly on a used id |
| MessageStore.Store.EditMessage | src/feature/chat/store/message.store.ts:200-210 | this message is found with the new text and edit mark, every other message and reaction as before |
| MessageStore.Store.UnsendMessage | src/feature/chat/store/message.store.ts:213-221 | this message is found deleted and without text, every other message and reaction as before |
| MessageStore.Store.DeleteConversationMessages | src/feature/chat/store/message.store.ts:223-228 | no message and no reaction of the conversation is left; every other message is, with its link unless that led into the conversation, and every other reaction |
| MessageLookups.ConversationDeletionFinds | prisma/schema.prisma:39 | what is found under any id after the deletion |
| MessageStore.Store.ApplyReaction | src/feature/chat/store/message.store.ts:242-257 | runs exactly the upsert or delete of the user's own reaction; fails exactly when the message has gone |
| MessageTable.RunsKeepDb | prisma/schema.prisma:29-62 | after any run of statements, with links looked up at any earlier time, keys are unique, every reply names an existing earlier row and every reaction an existing message |
| MessageTable.StatementKeepsDb | prisma/schema.prisma:38-60 | each statement keeps that, under SET NULL and CASCADE |
| MessageTable.ReplyIsEarlier | prisma/schema.prisma:38-40 | a reply names exactly one row, inserted strictly before |
| MessageTable.ReplyPathsEnd | prisma/schema.prisma:38-40 | following reply links strictly descends and so ends |
| MessageTable.DeleteKeepsLinks | prisma/schema.prisma:39 | SET NULL leaves no dangling link and removes exactly the given ids |
| MessageLookups.DeletionFinds | prisma/schema.prisma:38-40 | every other row is found as it was, its link kept unless the target was deleted |
| MessageTable.FindById | src/feature/chat/store/message.store.ts:176-179 | finds a row if and only if the id is in the table |
| History.WindowExactly | src/feature/chat/store/message.store.ts:118-124 | what a request asks for: exactly the conversation's rows, with a cursor other than 0 exactly those older than it, by time and id, each once |
| History.PagesAreTheHistory | src/feature/chat/store/message.store.ts:111-136 | with distinct times, the pages, each prepended to those read before, are the whole ordered history, whatever newer rows are inserted between requests |
| History.PagesAndGapsAreTheHistory | src/feature/chat/store/message.store.ts:116-124 | with equal times, pages and gaps together are; each gap holds only rows as old as its page's oldest |
| History.MissedRowsExactly | src/feature/chat/store/message.store.ts:131-134 | no row is read twice, and a row is missed if and only if, in the sorted window of some request, it lies before the newest `limit` rows and is as old as the oldest of them |
| History.CompleteExactly | src/feature/chat/store/message.store.ts:118-134 | the client reads the whole ordered history if and only if in the sorted window of every request the newest `limit` rows are newer than the row before them |
| LiveHistory.PagesListTheHistory | src/feature/chat/store/message.store.ts:111-136 | the same while messages are edited, unsent and reacted to as well: with distinct times the pages list every message once, in order |
| LiveHistory.ListsAllExactly | src/feature/chat/store/message.store.ts:118-134 | and then too the client lists the whole history if and only if the newest `limit` rows of every request's window are newer than the row before them |
| LiveHistory.MissedMessagesExactly | src/feature/chat/store/message.store.ts:131-134 | no message is listed twice, and which ones are missed, whatever becomes of their text |
| LiveHistory.StatementsChangeAbove | src/feature/chat/store/message.store.ts:166-257 | any run of sends, edits, unsends and reactions between two requests is such a change, if what is sent in the conversation is no older than the cursor |
| History.GapExactly | src/feature/chat/store/message.store.ts:131-134 | what one cursor skips, in terms of the sorted window alone |
| History.TiedRowIsMissed | src/feature/chat/store/message.store.ts:131-134 | of any two messages with one time, a client that reads one message a page misses one |
| History.ReadingIsBounded | src/feature/chat/store/message.store.ts:131-134 | following the cursor ends: a window of n rows takes at most n/limit pages, rounded up |
| History.WindowSplits | src/feature/chat/store/message.store.ts:118-134 | next window, gap and page make up the window, and the cursor strictly decreases |
| History.PageIsSuffix | src/feature/chat/store/message.store.ts:118-128 | descending order, one row too many, slice and reverse give the newest part of the window, oldest first |
| History.ZeroCursorRestarts | src/feature/chat/store/message.store.ts:121 | a cursor of 0 asks for the newest page |
| RowOrder.SortIsSorted | src/feature/chat/store/message.store.ts:123 | the query's order is the order by time and id |
| RowOrder.StringLeqExactly | src/feature/chat/store/message.store.ts:123 | the order of two ids: a prefix first, else by the first character where they differ |
| RowOrder.SortMembers | src/feature/chat/store/message.store.ts:118-125 | ordering keeps exactly the rows |
| RowOrder.SortFilter | src/feature/chat/store/message.store.ts:118-125 | selecting and ordering commute |
| MessageViews.RowIsShown | src/feature/chat/store/message.store.ts:37-54 | a hydrated row shows each of its own fields, a null sender as "system", exactly the reactions that the table has for it in table order, and a reply if and only if the row it names is stored, not unsent and no system message, cut to 140 characters |
| MessageViews.LookupShows | src/feature/chat/store/message.store.ts:100-109 | so does whatever `findMessage` finds |
| MessageViews.OneReactionEach | src/feature/chat/store/message.store.ts:230-241 | with at most one reaction of a user |
| MessageViews.ReactionIsSeen | src/feature/chat/store/message.store.ts:242-257 | after a reaction the message shows it as its user's only one, or none once taken back, everyone else's as before and nothing else changed |
| Hydration.Hydrate | src/feature/chat/store/message.store.ts:60-96 | the batched form gives every row exactly what resolving it on its own gives, for every table and row list |
| Hydration.ParentsById | src/feature/chat/store/message.store.ts:75 | the map looks up exactly what a search by id finds |
| Hydration.GroupReactions | src/feature/chat/store/message.store.ts:76-85 | the loop groups each message's reactions in table order |
| Hydration.FetchedIsEnough | src/feature/chat/store/message.store.ts:63-73 | the two queries fetch all that any of the rows needs |
| Hydration.HydrationDistributes | src/feature/chat/store/message.store.ts:87-95 | hydration distributes over concatenation |
| Hydration.HydratedListIsFound | src/feature/chat/store/message.store.ts:100-109 | a hydrated list of stored rows is `findMessage` of each |
| ReplyContexts.ReplyIsBuilt | src/feature/chat/util/reply.ts:12-36 | a reply quotes the stored message of the conversation, whatever the client says of it; where there is none to quote, it carries the client's own words, cut to 140 characters |
| ReplyContexts.SendRoundTripsExactly | src/feature/chat/handlers/message.handler.ts:45-64 | without concurrent change, `findMessage` returns the very message that was broadcast if and only if there is no reply or the reply resolves again |
| ReplyContexts.ResolutionsAgree | src/feature/chat/util/reply.ts:6-36 | the reply context at send time and at read time agree on a row of the conversation |
| Reactions.InterleavingsConverge | src/feature/chat/store/message.store.ts:230-257 | two interleavings that keep each (message, user) order give the same table, with one reaction per key |
| Reactions.LastWriteWins | src/feature/chat/store/message.store.ts:242-257 | after any run, a key holds exactly its own last write |
| Reactions.LastWriteOfOwn | src/feature/chat/store/message.store.ts:236-241 | other users' writes do not matter to it |
| Reactions.WriteSetsItsKey | src/feature/chat/store/message.store.ts:248-256 | one write sets its own key and no other |
| MessageRaces.OnlyTheSenderRewrites | src/feature/chat/handlers/message.handler.ts:67-116 | however checks and writes interleave, a message keeps sender, conversation, type and time, an unsend is final, and text or deletion change only by a write its own sender asked for |
| MessageRaces.SystemMessagesHaveNoReactions | src/feature/chat/handlers/reaction.handler.ts:28-40 | in every run |
| MessageRaces.BlankExactly | src/feature/chat/store/message.store.ts:212-221 | unsent messages stay without text in exactly the runs where no edit lands after an unsend |
| MessageRaces.SerialRunsStayBlank | src/feature/chat/handlers/message.handler.ts:67-85 | so in all runs where nothing happens between a check and its write |
| MessageRaces.EditCanLandLate | src/feature/chat/handlers/message.handler.ts:68-84 | a run, for any sender, conversation and text, where one does |
| MessageRaces.GainsInRunsExactly | src/feature/chat/handlers/reaction.handler.ts:28-40 | at any point of any run, an unsent message gains a reaction if and only if one is written that passed its check before the unsend |
| MessageRaces.SerialRunsGainNothing | src/feature/chat/handlers/reaction.handler.ts:28-40 | so never where nothing happens between a check and its write |
| MessageRaces.ReactionCanLandLate | src/feature/chat/handlers/reaction.handler.ts:28-40 | a run, for any user and emoji, where one is |
| MessageRaces.NextKeepsInv | src/feature/chat/handlers/message.handler.ts:67-116 | what a check established about its row, other than its not being deleted, holds until the write |
| MessageHandlers.HandleMessage | src/feature/chat/handlers/message.handler.ts:25-65 | not_member if and only if the id is a group's and the user no member of it, muted if and only if they are a muted member; else stores, broadcasts and acknowledges one and the same message, as written, quoting as above |
| MessageHandlers.HandleEdit | src/feature/chat/handlers/message.handler.ts:67-97 | forbidden if and only if someone else sent the target, deleted if and only if its own sender unsent it, non_editable if and only if it is no text; after an accepted edit of a stored message the new text is found; a missing target is broadcast all the same |
| MessageHandlers.HandleUnsend | src/feature/chat/handlers/message.handler.ts:99-116 | forbidden if and only if someone else sent the target; an accepted unsend of a stored message leaves it deleted and without text; a missing target is broadcast all the same |
| MessageHandlers.HandleReact | src/feature/chat/handlers/reaction.handler.ts:21-53 | refused if and only if the key is none of the six, or the target missing, deleted or a system message; else never rejected, and the message then shows the reaction as its user's only one |
| MessageHandlers.EditedTextIsFound | src/feature/chat/store/message.store.ts:200-210 | an edited message is found with its new text |
| NotificationStore.ListedShowsHistory | src/feature/notification/store/notification.store.ts:41-62 | after any run, what is listed is the latest fifty notifications sent to the user, latest first, each with the fields it was sent with, and read if and only if some later event read it |
| Notifications.ListShowsHistory | src/feature/notification/store/notification.store.ts:56-111 | after any run, a user's list is the latest fifty of all notifications ever sent to them, latest first, each read if and only if some later event read it |
| Notifications.SentIsAll | src/feature/notification/store/notification.store.ts:73-93 | the history it is compared with lists every notification sent to the user and nothing else |
| Notifications.MarkReadAnswersExactly | src/feature/notification/store/notification.store.ts:95-105 | `markRead` answers true if and only if the note is among the latest fifty and nothing has read it yet |
| Notifications.MarkReadIsTrueOnce | src/feature/notification/store/notification.store.ts:95-105 | ... so at most once for a notification |
| Notifications.IdsStayDistinct | src/feature/notification/store/notification.store.ts:73-93 | no list shows an id twice |
| Notifications.EventUpdates | src/feature/notification/store/notification.store.ts:87-111 | what any event does to any user's list |
| Notifications.FindNote | src/feature/notification/store/notification.store.ts:101 | the first row with the id |
| NotificationStore.Store.ListNotifications | src/feature/notification/store/notification.store.ts:56-62 | every field of every stored row, in order, without the empty ones |
| NotificationStore.Store.CreateNotification | src/feature/notification/store/notification.store.ts:73-93 | prepends a new unread row as asked for, keeps fifty, and returns it |
| NotificationStore.Store.MarkRead | src/feature/notification/store/notification.store.ts:95-105 | marks in place exactly the first unread row with the id, of this user only |
| NotificationStore.Store.MarkAllRead | src/feature/notification/store/notification.store.ts:107-111 | marks in place all rows of this user and of nobody else |
| Pins.ViewsFollow | src/feature/chat/handlers/room.handler.ts:5-11 | at every point of every run, a client that folds the replay and the events since it joined has the server's list, for group ids and its own well-formed direct-message ids |
| Pins.DeafViewFallsBehind | src/feature/chat/util/broadcast.ts:38-44 | every other client does not: from any state, the first message newly pinned makes its view differ |
| Pins.DeafViewsFallBehind | src/feature/chat/util/broadcast.ts:33-45 | and for each of them there is a run in which that happens |
| Pins.HearsExactly | src/feature/chat/util/broadcast.ts:33-45 | a viewer is reached if and only if the id is no direct message or a well-formed one of its own |
| Pins.ListsStayOrdered | src/feature/chat/handlers/pin.handler.ts:22-93 | with pins suspended at their lookup and unpins in between, lists hold distinct messages of their conversation, latest pin first |
| Pins.PinnedExactly | src/feature/chat/handlers/pin.handler.ts:46-92 | a message is pinned if and only if some request for it resolved and no unpin has come since |
| Pins.PinsWereAskedFor | src/feature/chat/handlers/pin.handler.ts:46-69 | whatever is pinned, at any point of any run, is what some earlier request resolved to, unchanged |
| Pins.ResolvesExactly | src/feature/chat/handlers/pin.handler.ts:25-69 | which requests resolve; a stored message is pinned with its own text, type and sender, whatever the client says, and one that is not found in the client's words, cut to 200 characters |
| Pins.ResolvePin | src/feature/chat/handlers/pin.handler.ts:25-69 | a resolved pin is of the requested message and conversation, by this user, at this time |
| PinHandlers.Store.GetOrCreatePinned | src/feature/chat/store/pin.store.ts:5-12 | the list, created empty if there was none |
| PinHandlers.Store.ResumePin | src/feature/chat/handlers/pin.handler.ts:25-73 | after the lookup: store, event and acknowledgement of the pin step; a duplicate changes and tells nothing |
| PinHandlers.Store.HandleUnpin | src/feature/chat/handlers/pin.handler.ts:76-93 | equals the unpin step; tells nobody when the conversation never had pins |
| PinHandlers.Store.HandleJoin | src/feature/chat/handlers/room.handler.ts:5-11 | replays the server's list exactly when it is not empty |
| PinHandlers.Store.FetchPins | src/feature/chat/handlers/pin.handler.ts:95-106 | the server's list |
| ConversationIds.WellFormedExactly | src/feature/chat/util/broadcast.ts:7-10 | an id names two users a and b if and only if it begins with `dm:a:b`, neither empty |
| ConversationIds.InvolvesExactly | src/feature/chat/util/broadcast.ts:13-17 | and involves a user if and only if it begins with `dm:u` or `dm:x:u` |
| ConversationIds.RoomsAre | src/feature/chat/util/broadcast.ts:19-45 | which rooms either function picks, for every id and sender |
| ConversationIds.ReplayFilterAgrees | src/feature/chat/store/message.store.ts:156-160 | for every string that starts with `dm:`, the replay's filter equals `dmInvolves` |
| ConversationIds.RoomsAgreeExactly | src/feature/chat/util/broadcast.ts:19-45 | `broadcast` and `broadcastToConversation` pick the same rooms if and only if the id is no direct message or a well-formed one of the sender's own |
| ConversationIds.RecipientIsTheOther | src/feature/chat/util/broadcast.ts:3-11 | each participant's recipient is the other one |
| ConversationIds.DmIdRoundTrip | src/feature/chat/util/broadcast.ts:13-17 | an id built from two colon-free user ids names exactly these two |
| SchemaLines.NormalizeIsIdempotent | scripts/check-schema-drift.mjs:39-47 | normalising, joining and normalising again changes nothing |
| SchemaLines.CutExactly | scripts/check-schema-drift.mjs:43 | a comment begins at the first two slashes |
| SchemaLines.NormalIsWords | scripts/check-schema-drift.mjs:43-44 | a normalised line is its words before the comment, one space apart |
| SchemaLines.SpaceDoesNotShow | scripts/check-schema-drift.mjs:44 | white space beside white space or at a line's ends does not show |
| SchemaLines.CommentDoesNotShowExactly | scripts/check-schema-drift.mjs:43-44 | a comment at a line's end does not show if and only if the line has one already or does not end in a slash |
| SchemaLines.NormalizeKeepsCount | scripts/check-schema-drift.mjs:43-44 | normalising drops nothing but white space and comments |
| SchemaLines.JoinsAgreeExactly | scripts/check-schema-drift.mjs:84 | comparing joined normal lines compares the lines |
| SchemaDrift.OpensExactly | scripts/check-schema-drift.mjs:52 | a line opens a block if and only if it is white space, the kind, some white space, the name, white space and a brace, whatever follows |
| SchemaDrift.OpensOne | scripts/check-schema-drift.mjs:52 | so it opens one block at most: `model MessageReaction {` does not open `Message` |
| SchemaDrift.BalanceIs | scripts/check-schema-drift.mjs:63-64 | the weight of a line is its number of opening braces less that of closing ones |
| SchemaDrift.ExtractBlock | scripts/check-schema-drift.mjs:50-69 | the loop returns the normalised block of the recursive definition |
| SchemaDrift.ExtractsSpan | scripts/check-schema-drift.mjs:56-67 | the normalised lines strictly between the first opening line and the first line after it where the running balance is zero or less |
| SchemaDrift.ExtractsOnlySpans | scripts/check-schema-drift.mjs:56-68 | and a block is returned only if there is such a pair |
| BraceBlocks.BlockIsExactly | scripts/check-schema-drift.mjs:52-68 | the same for arbitrary lines, openers and weights, in both directions |
| SchemaDrift.VerdictIgnoresAddedLine | scripts/check-schema-drift.mjs:75-91 | the verdict on a block does not change with a line without trace added anywhere after its opening line |
| SchemaDrift.VerdictIgnoresSpelling | scripts/check-schema-drift.mjs:75-91 | nor with a line in it spaced or commented differently |
| SchemaDrift.BlankOrCommentIsUnseen | scripts/check-schema-drift.mjs:43-46 | blank lines and comments without braces leave no trace |
| SchemaDrift.SpacedIsSameLine | scripts/check-schema-drift.mjs:43-44 | extra white space leaves a line the same |
| SchemaDrift.CommentedIsSameLine | scripts/check-schema-drift.mjs:43-44 | so does a comment without braces after it |
| SchemaDrift.HiddenExactly | scripts/check-schema-drift.mjs:56-67 | a blank or comment line shows in no schema, wherever it stands in the block, if and only if its braces balance |
| SchemaDrift.UnbalancedShows | scripts/check-schema-drift.mjs:63-66 | any line whose braces do not balance shows in some schema |
| SchemaDrift.BraceInCommentCounts | scripts/check-schema-drift.mjs:63-65 | for instance, `// }` right after the opening line ends the block there |
| SchemaDrift.CompareBlock | scripts/check-schema-drift.mjs:80-90 | what is reported for one block |
| SchemaDrift.Report | scripts/check-schema-drift.mjs:82-90 | comparing the joined texts of two normalised blocks reports drift if and only if their lines differ |
| SchemaDrift.FindingsAre | scripts/check-schema-drift.mjs:80-90 | each finding if and only if: missing here, missing there, or in both with different lines |
| SchemaDrift.NothingFoundExactly | scripts/check-schema-drift.mjs:82-90 | nothing, if and only if both schemas have the block with the same normal lines |
| SchemaDrift.CheckDrift | scripts/check-schema-drift.mjs:75-91 | the whole report, empty if and only if nothing is found on any block |
| JsStrings.SplitOfJoin | scripts/check-schema-drift.mjs:65 | joined parts are split off again |

## Left out

- HTTP and Socket.IO setup, configuration, logging, authentication and input parsing: a socket's user id and the parsed requests are given.
- Presence, feed, report, typing and read relays: each holds in one branch what could be said of it.
- `listAdminIds`, acknowledgement wording, the texts of system messages, display names of kicked users.
- Database failures, restarts, and writes by the other backend.
- System messages of leaves and kicks as rows: the group model keeps the suspension they cause, not the row.
- The rows that a send suspended across a group's deletion may still insert: only their keys and links are covered (`MessageTable.RunsKeepDb`).
- DmDeliveryRuns.DeliveredExactlyOnce: a connection and its replay are one step; the source awaits the query in between.
- DmDelivery.PendingForRecipient: direct messages whose sender is not a participant, or that a user sends to themselves, have no recipient here.
- MessageStore.Store.GetHistory: the limit is a natural number, since a negative `take` reads in the opposite direction; `History` follows cursors for limits of at least 1 and no row stamped 0.
- MessageStore.Store.AddMessage: nothing happens between its two awaits; `FindParent` and `CreateMessage` are the two, for handlers that do interleave.
- GroupServer.Server.DeleteGroup: the reason told with `group:deleted` changes nothing that a client keeps, so no statement depends on it; likewise for a leave or kick.
- GroupServer.Server.HandleCreate: an absent name is the empty string, and lengths count Unicode scalars where JavaScript counts UTF-16 units; so do all snippets.
- Pins.ViewsFollow: a client that is put into a group's room without `chat:join` is followed from its first `chat:join` on; a client that leaves the room, or is blocked, starts anew.
- SchemaDrift.ExtractBlock: kinds and names are taken literally, as the three blocks are; reading the two files and printing the report are left out.
- NotificationStore.Store.CreateNotification: the id and the time are parameters.
