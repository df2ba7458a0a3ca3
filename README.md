# Collaboration registry and workspace routes, modelled in Dafny

This project models the server core of a real-time collaborative workspace
application. It has three parts.

**The socket.io collaboration registry** (`server/socket/socketHandler.js`).
Six module-level maps are shared by every connection:

- `activeUsers` and `userSockets`;
- `workspaceUsers`, the presence list of each room;
- `workspaceMessages`, the chat history of each room, capped at fifty;
- `workspaceEditor`, the last-writer-wins document snapshot of each room, with a version counter;
- `typingUsers`.

Each socket also carries fields the handlers assign (`userId`, `user`, `currentRoom`). Socket.io keeps its own room membership, which decides who receives a chat broadcast. That membership is modelled separately (`Registry.rooms`) because it can disagree with `workspaceUsers`:

- switching rooms leaves the transport room but never removes the socket from the old presence list;
- the chat auto-join enters a second transport room without leaving the first.

Each handler (`authenticate`, `join-room`, `chat-message`, `editor-update`, `typing-start`, `typing-stop`, `disconnect`) is a method of `Collab.Registry`. It runs to completion and returns the emissions it makes, each paired with the set of socket ids that receive it. `Collab.Inbox` reads off what one socket receives.

**The demo workspace routes** (`server/routes/workspace.js`), module `DemoRoutes`:

- the in-memory `demoWorkspaces` store behind `/demo/:slug` (get-or-create), `/demo-create` and `/demo-join` (lookup by invite code, with a fallback record);
- the slug and display-name derivations;
- the `/join` member de-duplication;
- the `/:slug/invite` validation.

**The workspace document** (`server/models/Workspace.js`), module `WorkspaceModel`:

- the pre-save slug normaliser;
- invite-code generation;
- the collision fix-up of the second pre-save hook;
- the schema's role enum and invite-code shape.

Shared pieces:

- `Text`: trimming, case mapping, and the `replace(/X+/g, '-')` run replacement.
- `OrderedSets`: a JavaScript `Set` as an insertion-ordered duplicate-free sequence.
- `InviteCodes`: the eight-character generator.

Randomness, clocks, the identity provider and the database become parameters:

- `Math.random` results are passed as `rolls`, each in [0, 1).
- `Date.now()` is passed as `now`.
- Firebase token verification is passed as `verdict`: the decoded token, or `None` when verification throws.
- The database lookups are passed as `found`, `dbConnected`, `otherSlugs` and `otherCodes`.

Where the code and the design description disagree, the model follows the code:

- There is no server-side 1000-character limit on chat content.
- `typing-start` notifies on every call, with no idempotence check.
- `typing-stop` notifies whenever the room has a typing set, even if the user was not in it.
- `disconnect` removes the user from `activeUsers` even when another socket of the same user is still connected.
- `disconnect` emits no `isTyping: false`.
- The first edit of a room takes its version from the client.
- The editor snapshot sent on join defaults to version 1 and is not stored.
- Chat delivery goes to socket.io's room members, while counts come from `workspaceUsers`.

## Model

| member | source | states |
|---|---|---|
| Text.Trim | server/socket/socketHandler.js:249 | `trim()`: the result is no longer than the input, is empty exactly when the input is all white space, has no white space at either end, equals an input that has none at either end, and is the slice of the input that starts after its leading white space and is followed only by white space |
| Text.BeforeFirst | server/socket/socketHandler.js:50 | `split(c)[0]`: the result is a prefix of the input that does not contain `c` |
| Text.Decimal | server/socket/socketHandler.js:255 | the decimal rendering of a timestamp is non-empty, made only of digits, has no leading zero, and its digits read back as the number |
| Text.ReplaceRuns | server/routes/workspace.js:102 | `replace(/X+/g, '-')`: the result is empty exactly when the input is, is no longer than the input, and has only '-' or characters outside the class |
| Text.ReplaceRunsNone | server/routes/workspace.js:102 | a string without characters of the class is returned unchanged |
| Text.ReplaceRunsKeeps | server/models/Workspace.js:88 | for any character class containing '-' and every replaced character, the characters outside it survive the replacement, in order |
| Text.ReplaceRunsCollapses | server/routes/workspace.js:102 | a maximal run of one or more class characters, between non-class neighbours or the ends, becomes exactly one '-' and the parts on either side are replaced independently |
| Text.ReplaceRunsNoDoubleDash | server/models/Workspace.js:88 | when '-' belongs to the class, the result never has two '-' in a row |
| Text.ReplaceIsolatedRuns | server/routes/workspace.js:102 | when no two class characters are adjacent, the result is the input with each class character replaced by '-' |
| OrderedSets.Add | server/socket/socketHandler.js:131 | `Set.add`: membership gains exactly `x`, the size grows by one only for a new element, the old order is a prefix of the result, and distinctness is kept |
| OrderedSets.Delete | server/socket/socketHandler.js:411 | `Set.delete`: membership loses exactly `x`, distinctness is kept, the size drops by one exactly when `x` was present, and an absent `x` leaves the set as it was |
| OrderedSets.DeleteKeepsOrder | server/socket/socketHandler.js:411 | deleting a member cuts it out at its position; the others keep their order |
| OrderedSets.DeleteUndoesAdd | server/socket/socketHandler.js:131 | deleting a socket id just added to a presence set restores the set, order included |
| InviteCodes.Pick | server/models/Workspace.js:106 | one draw in [0, 1) selects an upper-case letter or a digit |
| InviteCodes.PickCovers | server/models/Workspace.js:103-106 | every character of the 36-character alphabet can be drawn: draw k/36 selects the k-th |
| InviteCodes.Generate | server/models/Workspace.js:102-109 | `generateInviteCode`: exactly 8 characters, each from A–Z0–9, the i-th being the i-th draw's character |
| WorkspaceModel.StripEdgeDashesIsSlug | server/models/Workspace.js:89 | removing one leading and one trailing '-' from a string over [a-z0-9-] without "--" leaves a well-formed slug |
| WorkspaceModel.NormalizeIsSlug | server/models/Workspace.js:86-89 | every generated slug contains only [a-z0-9-], never "--", and neither starts nor ends with '-' |
| WorkspaceModel.NormalizeFixesSlugs | server/models/Workspace.js:86-89 | a well-formed slug is its own normalisation |
| WorkspaceModel.NormalizeIdempotent | server/models/Workspace.js:86-89 | normalising a generated slug again returns it unchanged |
| WorkspaceModel.StripEdgeDashesKeeps | server/models/Workspace.js:89 | removing the edge dashes drops no letter or digit |
| WorkspaceModel.NormalizeKeepsLettersAndDigits | server/models/Workspace.js:86-89 | the slug keeps every letter and digit of the lower-cased name, in order |
| WorkspaceModel.SuffixKeepsSlug | server/models/Workspace.js:118-120 | appending `-<timestamp>` to a non-empty slug keeps it a well-formed slug |
| WorkspaceModel.WorkspaceDoc.constructor | server/models/Workspace.js:3-41 | a new document has its name trimmed by the schema, no slug or invite code yet, and the owner as its one admin member |
| WorkspaceModel.WorkspaceDoc.GenerateSlugAndCode | server/models/Workspace.js:84-99 | first pre-save hook: the slug is derived only when the name was modified and no slug exists; an invite code is generated only when absent; `updatedAt` is reset on every save; nothing else changes |
| WorkspaceModel.WorkspaceDoc.EnsureUnique | server/models/Workspace.js:112-134 | second pre-save hook: a modified slug that another document holds gets `-<now>` appended once; a modified, taken invite code is redrawn once, with no retry; nothing else changes |
| WorkspaceModel.WorkspaceDoc.SaveAsWritten | server/models/Workspace.js:9-31 | `save()` as Mongoose orders it: the `required` validators run before the pre-save hooks; a document without name, slug or invite code is refused and left unchanged; otherwise it is saved with the slug and invite code the hooks leave or set, `updatedAt` stamped and the other fields kept |
| WorkspaceModel.WorkspaceDoc.Save | server/models/Workspace.js:84-134 | `save()` with the hooks ahead of validation: the slug and code the hooks set, then saved exactly when name, slug and invite code are non-empty |
| WorkspaceModel.CreateAsWritten | server/routes/workspace.js:264-275 | `POST /create` with the database up, as written: the new document is never saved, whatever the name |
| WorkspaceModel.Create | server/routes/workspace.js:264-275 | `POST /create` with the hooks ahead of validation: the document holds the trimmed name, the trimmed description or '' and the owner as admin; it is saved exactly when the name has a letter or digit, and then with a well-formed slug and a valid invite code |
| WorkspaceModel.FirstSlugIsSlug | server/models/Workspace.js:86-89 | the slug a new document derives from its name, suffixed or not, is well formed |
| WorkspaceModel.WorkspaceDoc.PreSave | server/models/Workspace.js:84-134 | both hooks in order: the final slug and invite code in terms of the old state, the name and the other documents' slugs and codes |
| DemoRoutes.DemoName | server/routes/workspace.js:35 | the demo name has the slug's length, its first character upper-cased, and each later '-' turned into a space, other characters kept |
| DemoRoutes.CreateSlug | server/routes/workspace.js:102 | the `/demo-create` slug has no white space, is empty exactly when the trimmed name is, and is no longer than the trimmed name |
| DemoRoutes.CreateSlugKeeps | server/routes/workspace.js:102 | every character of the lower-cased trimmed name other than white space and '-' survives into the slug, in order |
| DemoRoutes.CreateSlugOfWord | server/routes/workspace.js:102 | a trimmed name without inner white space gives its lower-cased self as slug |
| DemoRoutes.DemoNameTrimmed | server/routes/workspace.js:35 | the display name of a well-formed slug has no white space at either end |
| DemoRoutes.LowerDemoName | server/routes/workspace.js:35 | lower-casing the display name of a well-formed slug gives the slug with its dashes as spaces |
| DemoRoutes.SpacedSlug | server/routes/workspace.js:35 | in a well-formed slug with dashes as spaces, no two spaces are adjacent, and marking each space with '-' gives back the slug |
| DemoRoutes.CreateSlugOfDemoName | server/routes/workspace.js:102 | creating a workspace from the display name of a well-formed slug stores it under that same slug, a round trip |
| DemoRoutes.SlugTitle | server/routes/workspace.js:319 | `/:slug` name: the slug without a leading "workspace-" (length reduced by 10 exactly then), position by position upper-cased, each '-' a space |
| DemoRoutes.ViewBySlug | server/routes/workspace.js:319-326 | the name is "Workspace " plus the title and the description "This is the " plus the title plus " workspace"; the invite code is the title, or "ABC123" when the title is empty (so for the slugs "" and "workspace-") |
| DemoRoutes.JoinMembers | server/routes/workspace.js:486-497 | `/join`: afterwards the user is a member; the old list is a prefix; the list is unchanged exactly when the user was already a member; otherwise one `member` entry is appended |
| DemoRoutes.JoinRepeatedly | server/routes/workspace.js:486-497 | any number of repeated joins of one user equals a single join, so they add at most one entry |
| DemoRoutes.JoinByCode | server/routes/workspace.js:411-497 | `/join`: 400 exactly for a missing or blank code; 404 exactly when the database is up and finds nothing; with the database up, the reply is the stored members after the `/join` de-duplication (`JoinMembers`); without it, the mock owner and the user as member |
| DemoRoutes.FirstWithCode | server/routes/workspace.js:153-155 | the first position whose invite code equals the code, every earlier one differing, or the length when none matches |
| DemoRoutes.DemoStore.constructor | server/routes/workspace.js:10 | the store starts empty |
| DemoRoutes.DemoStore.Put | server/routes/workspace.js:134 | `Map.set`: the record is stored under its slug, a new key goes last, an existing key keeps its place |
| DemoRoutes.DemoStore.FetchDemo | server/routes/workspace.js:18-73 | `/demo/:slug`: a stored slug returns the stored record with the store untouched; an unknown slug creates, stores and returns the derived record, with a valid 8-character invite code, appended last |
| DemoRoutes.DemoStore.FetchDemoTwice | server/routes/workspace.js:22-24 | a second fetch of the same slug returns the same record, invite code included, and stores nothing new |
| DemoRoutes.DemoStore.CreateDemo | server/routes/workspace.js:76-140 | `/demo-create`: a missing or blank name gives 400 and leaves the store untouched; otherwise 201 with the trimmed name, the derived slug, the trimmed description or '', a valid invite code and the demo owner, stored under its slug |
| DemoRoutes.DemoStore.FindByInviteCode | server/routes/workspace.js:152-155 | the loop with `break` returns the first stored workspace, in insertion order, whose invite code equals the given code exactly, or nothing |
| DemoRoutes.DemoStore.JoinDemo | server/routes/workspace.js:143-211 | `/demo-join`: 400 for a missing or blank code; otherwise the first stored match or the fallback record carrying the given code; the store is never modified |
| DemoRoutes.DemoStore.Invite | server/routes/workspace.js:547-585 | `/:slug/invite`: 400 for a missing or blank email; otherwise the trimmed email, the role defaulting to member, the link built from slug and code, expiry seven days after `now`, and the stored code when present, else a fresh valid one |
| Collab.ChatMessageOf | server/socket/socketHandler.js:254-264 | a new chat message carries the trimmed content, the sender, kind "text" and the current time |
| Collab.InboxAppend | server/socket/socketHandler.js:292-320 | emissions in sequence: each socket receives what the first part sends it, then what the second sends |
| Collab.DeliverOne | server/socket/socketHandler.js:295-301 | one step of the `forEach` broadcast: the step's socket joins the members already served |
| Collab.BroadcastThenConfirm | server/socket/socketHandler.js:292-320 | after the room broadcast and the final `message-sent`, each member receives `new-message`, and the sender then `message-sent` |
| Collab.Join | server/socket/socketHandler.js:123 | `socket.join(r)` adds the socket to room `r` only |
| Collab.Leave | server/socket/socketHandler.js:118-119 | `socket.leave(r)` removes the socket from room `r` only |
| Collab.LeaveAll | server/socket/socketHandler.js:398 | before the disconnect handler runs, the socket is in no room and every other membership is unchanged |
| Collab.LeaveCurrent | server/socket/socketHandler.js:116-120 | with a current room, the socket leaves that room and its typing room and nothing else; without one, nothing changes |
| Collab.Post | server/socket/socketHandler.js:272-280 | `push` then `shift` past 50: a bounded history stays within 50, ends with the new message, and equals the latest 50 of the old history plus the message |
| Collab.ReplayKeepsLatest | server/socket/socketHandler.js:272-280 | after any sequence of posts a room holds exactly the latest 50 of everything posted, oldest first |
| Collab.NextVersion | server/socket/socketHandler.js:340 | `(stored version or client version or 1) + 1`: a stored non-zero version wins, then a non-zero client version, then 1 |
| Collab.Accept | server/socket/socketHandler.js:339-349 | an accepted edit stores the content or '', the sender as last editor, the time, and the version `NextVersion` gives for the stored snapshot and the client's version, which is the stored version plus one whenever a non-zero one is stored |
| Collab.EditsAdvanceVersion | server/socket/socketHandler.js:339-352 | once a room has a positive version, n accepted edits advance it by exactly n whatever integer versions the clients send, and the last writer's content and identity win |
| Collab.FirstEditFollowsClient | server/socket/socketHandler.js:340 | in a room with no snapshot, the first edit takes its version from the client's (or 1); then each edit adds one |
| Collab.DisplayNameOf | server/socket/socketHandler.js:50 | the token's name, else the part of the email before its first '@' (the whole email when it has none), else "User" |
| Collab.Connection.constructor | server/socket/socketHandler.js:15 | a new socket has no user id, no user and no current room |
| Collab.Registry.constructor | server/socket/socketHandler.js:9-14 | all six maps, the transport rooms and the socket table start empty, and the registry invariant holds |
| Collab.Registry.Connect | server/socket/socketHandler.js:15-16 | a fresh unauthenticated connection is registered under its id, the invariant kept |
| Collab.Registry.RosterEntryOf | server/socket/socketHandler.js:166-170 | a roster entry shows the socket's user id or else the socket id, and its display name or else "User"; a vanished socket shows its own id and "User" |
| Collab.Registry.Roster | server/socket/socketHandler.js:165-171 | the roster has one entry per presence-list socket, in presence order |
| Collab.Registry.Authenticate | server/socket/socketHandler.js:20-83 | `authenticate`: a missing token gives "No token provided" and a rejected token "Invalid token", both changing nothing; the demo token or a verified token binds the socket to its user in both user maps and answers `authenticated` |
| Collab.Registry.EnsureUser | server/socket/socketHandler.js:91-101 | a socket without a user id gets the demo user; one with a user id keeps it |
| Collab.Registry.Enter | server/socket/socketHandler.js:123-131 | join the transport room, set the current room, add the socket id to the room's presence list with set semantics |
| Collab.Registry.LeaveForJoin | server/socket/socketHandler.js:91-120 | the first half of `join-room`: the demo user when needed, and the previous room and its typing room left in the transport only |
| Collab.Registry.JoinRoom | server/socket/socketHandler.js:86-194 | `join-room`: presence gains the socket once; the count sent to the others and to the joiner is the presence size after insertion; the roster in presence order; the history as stored; the stored editor snapshot or the default `{'' , 1, joiner}`, which is not stored |
| Collab.Registry.DeliverToRoom | server/socket/socketHandler.js:292-301 | the `forEach` loop: every live member of the transport room receives the event exactly once, and nobody else does |
| Collab.Registry.AutoJoin | server/socket/socketHandler.js:207-247 | the auto-join of `chat-message`: the demo user when needed; a socket whose current room differs enters the message's room without leaving the old one; otherwise nothing changes |
| Collab.Registry.Record | server/socket/socketHandler.js:271-280 | the room's history becomes `Post` of the old one; other rooms are untouched |
| Collab.Registry.Announce | server/socket/socketHandler.js:291-320 | every room member, the sender included, receives `new-message`, and the sender alone then `message-sent` |
| Collab.Registry.PostMessage | server/socket/socketHandler.js:249-320 | blank content stores and emits nothing; other content is stored with the 50 cap and delivered as `Announce` states |
| Collab.Registry.ChatMessage | server/socket/socketHandler.js:197-326 | `chat-message`: the demo user and the auto-join always take effect; blank content stores and emits nothing; a valid post is appended with the cap and sent to every room member, the sender included, and `message-sent` to the sender alone |
| Collab.Registry.EditorUpdate | server/socket/socketHandler.js:329-358 | `editor-update`: without a user, without a current room, or for another room, an `error` to the sender and no change; otherwise `Accept` is stored and exactly that snapshot is sent to the whole room, the sender included |
| Collab.Registry.TypingStart | server/socket/socketHandler.js:361-378 | `typing-start`: nothing unless authenticated in that room; otherwise the user joins the room's typing set and the others (not the sender) are notified on every call |
| Collab.Registry.TypingStop | server/socket/socketHandler.js:380-395 | `typing-stop`: nothing unless authenticated in that room and the room has a typing set; otherwise the user leaves the set and the others are notified |
| Collab.Registry.Drop | server/socket/socketHandler.js:398 | socket.io's cleanup before the handler: the socket is unregistered and in no room |
| Collab.Registry.Depart | server/socket/socketHandler.js:398-445 | the handler body: for an authenticated socket, its user and socket entries go, its id leaves its room's presence list, its user id leaves that room's typing set, and the remaining members get `user-left` and `active-users-update` with the new size; a socket without a user id changes nothing |
| Collab.Registry.Disconnect | server/socket/socketHandler.js:398-445 | `disconnect`: the cleanup, then the handler as `Depart` states, with the invariant kept |

## Left out

- Console logging, `fetchSockets` (used only for logging) and socket.io's delivery mechanics are left out. Emissions are returned as records with their recipient sets.
- The `io.to(room)` fallback when the transport room does not exist is not modelled. After the auto-join the sender is always in the room, so the branch is unreachable.
- Every socket's private room (socket.io joins each socket to a room named by its id) is left out. No handler refers to it.
- The handlers are modelled as atomic; concurrency is not modelled. The `await`s in `authenticate` (on `verifyIdToken`, socketHandler.js:45) and in `chat-message` let other events interleave. A `disconnect` that arrives during the token check runs first, so the registration that follows leaves stale `activeUsers` and `userSockets` entries for a socket that is gone.
- Every handler's payload is modelled as well-typed strings (and an integer version). A missing or malformed payload makes the source throw. In `join-room`, `chat-message` and `editor-update` the throw is caught and becomes an `error` emission. In `typing-start` and `typing-stop` the destructuring (socketHandler.js:364, :383) is outside any `try`, so the exception escapes the handler. Neither path is modelled.
- Collab.NextVersion, Collab.Accept, Collab.EditsAdvanceVersion: versions are unbounded integers. JavaScript numbers are doubles: past 2^53 adding one no longer changes the value, a fractional client version such as 0.5 gives 1.5, and a string version such as "3" gives "31". None of this is modelled.
- The catch-all `try`/`catch` error emissions and the 500 replies of the routes are not modelled. Each fires only on a thrown exception.
- Firebase token verification is a foreign call. It is the `verdict` parameter of `Authenticate`.
- Only ASCII letters are case-mapped by `Lower` and `Upper`. JavaScript's full Unicode case mapping is not modelled.
- Collab.ChatMessageOf: message ids (`msg_<timestamp>`) need not be unique, and nothing is claimed about them.
- Timestamps (`lastEditedAt`, `createdAt`, `updatedAt`) are the number `now` passed in. The `Date` objects and their serialisation are not modelled.
- DemoRoutes.DemoStore.Invite: `expiresAt` is the millisecond count, not the ISO string `toISOString` produces. The role default applies to an absent role; a JSON `null` role is not distinguished.
- DemoRoutes.JoinByCode: the database lookup by upper-cased code, `save` and `populate` are the `found` and `dbConnected` parameters. Only the member list of the reply is modelled; the mock record's other display fields are left out.
- Mongoose persistence is replaced by the sets `otherSlugs` and `otherCodes`. This covers `save`, `countDocuments`, `checkConnection` and the database-backed routes other than `/join` and `/create`. `GET /:slug` never reads the database and is the pure `ViewBySlug`.
- The schema's `trim`, `lowercase` and `uppercase` setters on `slug` and `inviteCode` are left out. The generated values already satisfy them.
- The `unique` index checks are left out. The `required` validators are modelled only for `save()` of name, slug and invite code (`PassesRequired`); `owner` is always given. The schema's `length: 8` on `inviteCode` is not a Mongoose validator, so the model states the length of generated codes only.
- The model computes two things in a different order from the source, with the same results. `PostMessage` announces before recording, because the emissions read only the transport rooms and the socket table. `Depart` clears the typing set before the presence list.
- Only the record fields the routes compute are modelled (id, name, slug, description, invite code, owner id, members). The owner display object, settings, analytics and timestamps of the mock records are constants and are left out.

## Findings

| source | as written | input that shows it | evidently intended | confidence | as-written member | corrected member |
|---|---|---|---|---|---|---|
| server/models/Workspace.js:11, :27, :84-99; server/routes/workspace.js:264-275 | `slug` and `inviteCode` are `required`, but only the `pre('save')` hook fills them, and Mongoose validates before it runs `pre('save')` hooks, so a new document fails validation and `POST /create` answers 500 | `POST /create` with name "Team" and the database connected | the hook fills slug and invite code before validation (a `pre('validate')` hook), so the document is saved with slug "team" | high (Mongoose's documented hook order), not executed | WorkspaceModel.CreateAsWritten | WorkspaceModel.Create |
