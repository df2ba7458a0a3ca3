/** The real-time collaboration registry of `server/socket/socketHandler.js`:
    six module-level maps shared by every connection, the per-connection
    fields the handlers assign, and socket.io's own room membership, which
    the handlers update with `join`/`leave` and which decides who receives a
    broadcast. Each handler runs to completion and returns what it emits,
    every emission with its set of recipient socket ids. */
module Collab {
  import opened Wrappers
  import opened Text
  import opened OrderedSets

  type SocketId = string
  type UserId = string
  type Room = string

  const DEMO_USER_ID: UserId := "demo_user_123"
  const DEMO_TOKEN: string := "demo_token_123"
  /** How many chat messages a room keeps. */
  const HISTORY_LIMIT: nat := 50

  /** The part of `socket.user` that reaches other clients. */
  datatype UserInfo = UserInfo(id: UserId, displayName: string, photoURL: Option<string>)

  const DEMO_USER: UserInfo := UserInfo(DEMO_USER_ID, "Demo User", None)
  /** `socket.user` before anything assigns it. */
  const NO_USER: UserInfo := UserInfo("", "", None)

  /** What the identity provider's verification yields for a token; "" stands
      for an absent claim. */
  datatype DecodedToken = DecodedToken(uid: string, name: string, email: string, picture: string)

  datatype Message = Message(id: string, content: string, sender: UserInfo, kind: string, createdAt: nat)

  /** The message a post creates: its id from the clock, the trimmed text,
      the sender as the socket knows it. */
  function ChatMessageOf(sender: UserInfo, content: string, now: nat): (m: Message)
    ensures m.content == Trim(content) && m.sender == sender && m.kind == "text" && m.createdAt == now
  {
    Message("msg_" + Decimal(now), Trim(content), sender, "text", now)
  }

  /** The last-writer-wins snapshot of a room's shared document. */
  datatype EditorState = EditorState(content: string, version: int, lastEditedBy: UserId, lastEditedAt: nat)

  /** One accepted `editor-update` payload, with its sender and time. */
  datatype Edit = Edit(content: Option<string>, clientVersion: int, author: UserId, at: nat)

  datatype RosterEntry = RosterEntry(id: string, displayName: string)

  datatype Event =
    | Authenticated(user: UserInfo)
    | AuthError(message: string)
    | UserJoined(user: UserInfo, activeUsersCount: nat)
    | ActiveUsersUpdate(count: nat, users: seq<RosterEntry>)
    | RecentMessages(messages: seq<Message>)
    | EditorContent(state: EditorState)
    | NewMessage(posted: Message)
    | MessageSent(messageId: string, timestamp: nat)
    | EditorUpdated(state: EditorState)
    | UserTyping(userId: UserId, displayName: string, isTyping: bool)
    | UserLeft(userId: UserId, displayName: string, activeUsersCount: nat)
    | Error(message: string)

  /** One emission and the sockets it reaches. */
  datatype Emit = Emit(to: set<SocketId>, event: Event)

  /** The events socket `s` receives from `out`, in emission order. */
  function Inbox(out: seq<Emit>, s: SocketId): (r: seq<Event>)
    ensures |r| <= |out|
  {
    if out == [] then []
    else (if s in out[0].to then [out[0].event] else []) + Inbox(out[1..], s)
  }

  lemma InboxSingle(e: Emit, s: SocketId)
    ensures Inbox([e], s) == if s in e.to then [e.event] else []
  {
    assert [e][1..] == [];
  }

  /** Emissions in sequence: each socket receives what the first part sends it, then the second. */
  lemma {:induction false} InboxAppend(a: seq<Emit>, b: seq<Emit>, s: SocketId)
    ensures Inbox(a + b, s) == Inbox(a, s) + Inbox(b, s)
    decreases |a|
  {
    if a != [] {
      InboxAppend(a[1..], b, s);
      assert (a + b)[1..] == a[1..] + b;
    } else {
      assert a + b == b;
    }
  }

  /** One more recipient of a broadcast built one emission per socket: the
      socket `s` taken from those still pending joins those already served. */
  lemma DeliverOne(out: seq<Emit>, sent: seq<Emit>, members: set<SocketId>, pending: set<SocketId>,
                   s: SocketId, live: set<SocketId>, ev: Event)
    requires s in pending && s in members
    requires forall q :: Inbox(out, q) == if q in members - pending && q in live then [ev] else []
    requires sent == if s in live then [Emit({s}, ev)] else []
    ensures forall q :: Inbox(out + sent, q) == if q in members - (pending - {s}) && q in live then [ev] else []
  {
    forall q ensures Inbox(out + sent, q) == if q in members - (pending - {s}) && q in live then [ev] else [] {
      if s in live {
        InboxAppend(out, sent, q);
        InboxSingle(Emit({s}, ev), q);
      } else {
        assert out + sent == out;
      }
    }
  }

  /** A broadcast to every live member followed by one more emission: each
      member receives the broadcast, then whatever the last emission sends it. */
  lemma BroadcastThenConfirm(delivered: seq<Emit>, confirm: Emit, members: set<SocketId>,
                             live: set<SocketId>, ev: Event)
    requires members <= live
    requires forall q :: Inbox(delivered, q) == if q in members && q in live then [ev] else []
    ensures forall q :: Inbox(delivered + [confirm], q) ==
                          (if q in members then [ev] else []) +
                          (if q in confirm.to then [confirm.event] else [])
  {
    forall q ensures Inbox(delivered + [confirm], q) ==
                       (if q in members then [ev] else []) +
                       (if q in confirm.to then [confirm.event] else [])
    {
      InboxAppend(delivered, [confirm], q);
      InboxSingle(confirm, q);
    }
  }

  /** What `chat-message` sends for a stored post `m`: every member of the
      room receives `new-message`, and the sender then `message-sent`. */
  ghost predicate ChatDelivered(out: seq<Emit>, members: set<SocketId>, sender: SocketId, m: Message, now: nat) {
    forall s :: Inbox(out, s) ==
                (if s in members then [NewMessage(m)] else []) +
                (if s == sender then [MessageSent(m.id, now)] else [])
  }

  /** The members of a socket.io room; a room nobody joined has none. */
  function Members(rooms: map<Room, set<SocketId>>, r: Room): set<SocketId> {
    if r in rooms then rooms[r] else {}
  }

  /** `socket.join(r)`. */
  function Join(rooms: map<Room, set<SocketId>>, r: Room, s: SocketId): (m: map<Room, set<SocketId>>)
    ensures forall q :: Members(m, q) == if q == r then Members(rooms, q) + {s} else Members(rooms, q)
  {
    rooms[r := Members(rooms, r) + {s}]
  }

  /** `socket.leave(r)`. */
  function Leave(rooms: map<Room, set<SocketId>>, r: Room, s: SocketId): (m: map<Room, set<SocketId>>)
    ensures forall q :: Members(m, q) == if q == r then Members(rooms, q) - {s} else Members(rooms, q)
  {
    if r in rooms then rooms[r := rooms[r] - {s}] else rooms
  }

  /** What socket.io does to the rooms before a `disconnect` handler runs: the
      socket leaves every room. */
  function LeaveAll(rooms: map<Room, set<SocketId>>, s: SocketId): (m: map<Room, set<SocketId>>)
    ensures forall q :: Members(m, q) == Members(rooms, q) - {s}
  {
    map r | r in rooms :: rooms[r] - {s}
  }

  /** The rooms `join-room` leaves: the current room and its typing room, when
      the socket has a current room. */
  function LeaveCurrent(rooms: map<Room, set<SocketId>>, current: Room, s: SocketId): (m: map<Room, set<SocketId>>)
    ensures current == "" ==> m == rooms
    ensures current != "" ==> Members(m, current) == Members(rooms, current) - {s}
    ensures current != "" ==> Members(m, "typing-" + current) == Members(rooms, "typing-" + current) - {s}
    ensures forall q :: q != current && q != "typing-" + current ==> Members(m, q) == Members(rooms, q)
  {
    if current == "" then rooms else Leave(Leave(rooms, current, s), "typing-" + current, s)
  }

  /** The presence list of a room, in insertion order. */
  function Presence(users: map<Room, seq<SocketId>>, r: Room): seq<SocketId> {
    if r in users then users[r] else []
  }

  /** The chat history of a room, oldest first. */
  function History(messages: map<Room, seq<Message>>, r: Room): seq<Message> {
    if r in messages then messages[r] else []
  }

  function Stored(editor: map<Room, EditorState>, r: Room): Option<EditorState> {
    if r in editor then Some(editor[r]) else None
  }

  /** The `n` most recent elements of `s`, or all of them. */
  function Latest<T>(s: seq<T>, n: nat): seq<T> {
    if |s| <= n then s else s[|s| - n..]
  }

  /** `push` then, past the limit, `shift`: the history keeps the latest
      messages, ending with the new one. */
  function Post(history: seq<Message>, m: Message): (r: seq<Message>)
    ensures |history| <= HISTORY_LIMIT ==> r == Latest(history + [m], HISTORY_LIMIT)
    ensures |history| <= HISTORY_LIMIT ==> |r| <= HISTORY_LIMIT
    ensures r != [] && r[|r| - 1] == m
  {
    var pushed := history + [m];
    if |pushed| > HISTORY_LIMIT then pushed[1..] else pushed
  }

  /** A room history after a sequence of posts. */
  function Replay(history: seq<Message>, posts: seq<Message>): seq<Message>
    decreases |posts|
  {
    if posts == [] then history else Replay(Post(history, posts[0]), posts[1..])
  }

  lemma LatestOfLatest<T>(a: seq<T>, b: seq<T>, n: nat)
    ensures Latest(Latest(a, n) + b, n) == Latest(a + b, n)
  {
    var l := Latest(a, n);
    assert l + b == (a + b)[|a| - |l|..];
  }

  /** However many messages are posted, a room keeps the latest fifty of
      everything posted, oldest first, and nothing else. */
  lemma {:induction false} ReplayKeepsLatest(history: seq<Message>, posts: seq<Message>)
    requires |history| <= HISTORY_LIMIT
    ensures Replay(history, posts) == Latest(history + posts, HISTORY_LIMIT)
    decreases |posts|
  {
    if posts == [] {
      assert history + posts == history;
    } else {
      var next := Post(history, posts[0]);
      ReplayKeepsLatest(next, posts[1..]);
      LatestOfLatest(history + [posts[0]], posts[1..], HISTORY_LIMIT);
      assert history + [posts[0]] + posts[1..] == history + posts;
    }
  }

  /** `(prev?.version || version || 1) + 1`: a stored non-zero version wins,
      then a non-zero client version, then 1. */
  function NextVersion(prev: Option<EditorState>, clientVersion: int): (v: int)
    ensures prev.Some? && prev.value.version != 0 ==> v == prev.value.version + 1
    ensures (prev.None? || prev.value.version == 0) && clientVersion != 0 ==> v == clientVersion + 1
    ensures (prev.None? || prev.value.version == 0) && clientVersion == 0 ==> v == 2
  {
    var base :=
      if prev.Some? && prev.value.version != 0 then prev.value.version
      else if clientVersion != 0 then clientVersion
      else 1;
    base + 1
  }

  /** The snapshot an accepted edit stores and broadcasts. */
  function Accept(prev: Option<EditorState>, e: Edit): (s: EditorState)
    ensures s.content == e.content.GetOr("") && s.lastEditedBy == e.author && s.lastEditedAt == e.at
    ensures prev.Some? && prev.value.version != 0 ==> s.version == prev.value.version + 1
    ensures s.version == NextVersion(prev, e.clientVersion)
  {
    EditorState(e.content.GetOr(""), NextVersion(prev, e.clientVersion), e.author, e.at)
  }

  /** A room's snapshot after a sequence of accepted edits. */
  function EditorAfter(stored: Option<EditorState>, edits: seq<Edit>): Option<EditorState>
    decreases |edits|
  {
    if edits == [] then stored else EditorAfter(Some(Accept(stored, edits[0])), edits[1..])
  }

  /** Once a room holds a positive version, every accepted edit adds exactly
      one, whatever the clients send, and the last writer's content wins. */
  lemma {:induction false} EditsAdvanceVersion(stored: EditorState, edits: seq<Edit>)
    requires stored.version >= 1
    ensures EditorAfter(Some(stored), edits).Some?
    ensures EditorAfter(Some(stored), edits).value.version == stored.version + |edits|
    ensures edits != [] ==>
      && EditorAfter(Some(stored), edits).value.content == edits[|edits| - 1].content.GetOr("")
      && EditorAfter(Some(stored), edits).value.lastEditedBy == edits[|edits| - 1].author
    decreases |edits|
  {
    if edits != [] {
      EditsAdvanceVersion(Accept(Some(stored), edits[0]), edits[1..]);
    }
  }

  /** The first edit of a room takes its version from the client (or 1 when
      the client sends none); from then on the count is the server's. */
  lemma FirstEditFollowsClient(edits: seq<Edit>)
    requires edits != [] && edits[0].clientVersion >= 0
    ensures EditorAfter(None, edits).Some?
    ensures EditorAfter(None, edits).value.version ==
      (if edits[0].clientVersion == 0 then 1 else edits[0].clientVersion) + |edits|
  {
    EditsAdvanceVersion(Accept(None, edits[0]), edits[1..]);
  }

  /** `decodedToken.name || (email ? email.split('@')[0] : 'User')`. */
  function DisplayNameOf(t: DecodedToken): (r: string)
    ensures t.name != "" ==> r == t.name
    ensures t.name == "" && t.email != "" ==>
      && |r| <= |t.email| && r == t.email[..|r|] && '@' !in r
      && (|r| < |t.email| ==> t.email[|r|] == '@')
    ensures t.name == "" && t.email == "" ==> r == "User"
  {
    if t.name != "" then t.name
    else if t.email != "" then BeforeFirst(t.email, '@')
    else "User"
  }

  /** The user a verified token stands for. */
  function UserOf(t: DecodedToken): UserInfo {
    UserInfo(t.uid, DisplayNameOf(t), if t.picture == "" then None else Some(t.picture))
  }

  /** The per-connection state: `socket.id` and the fields the handlers assign;
      "" stands for a field that is unset or otherwise falsy. */
  class Connection {
    const id: SocketId
    var userId: UserId
    var user: UserInfo
    var currentRoom: Room

    constructor (id: SocketId)
      ensures this.id == id && userId == "" && user == NO_USER && currentRoom == ""
    {
      this.id := id;
      userId := "";
      user := NO_USER;
      currentRoom := "";
    }
  }

  /** The six maps, socket.io's rooms and its table of live connections. */
  class Registry {
    var activeUsers: map<UserId, SocketId>
    var userSockets: map<SocketId, UserId>
    var typingUsers: map<Room, set<UserId>>
    var workspaceUsers: map<Room, seq<SocketId>>
    var workspaceMessages: map<Room, seq<Message>>
    var workspaceEditor: map<Room, EditorState>
    var rooms: map<Room, set<SocketId>>
    var sockets: map<SocketId, Connection>

    /** Every live connection is registered under its own id, rooms hold only
        live connections, and a connection with a current room is in it. */
    ghost predicate Wired()
      reads this`sockets, this`rooms, sockets.Values
    {
      && (forall s :: s in sockets ==> sockets[s].id == s)
      && (forall r :: r in rooms ==> rooms[r] <= sockets.Keys)
      && (forall s :: s in sockets && sockets[s].currentRoom != "" ==> s in Members(rooms, sockets[s].currentRoom))
    }

    /** Presence lists have set semantics: no socket id twice. */
    ghost predicate PresenceDistinct()
      reads this`workspaceUsers
    {
      forall r :: r in workspaceUsers ==> Distinct(workspaceUsers[r])
    }

    /** No room keeps more than the history limit. */
    ghost predicate HistoriesBounded()
      reads this`workspaceMessages
    {
      forall r :: r in workspaceMessages ==> |workspaceMessages[r]| <= HISTORY_LIMIT
    }

    ghost predicate Valid()
      reads this`sockets, this`rooms, this`workspaceUsers, this`workspaceMessages, sockets.Values
    {
      Wired() && PresenceDistinct() && HistoriesBounded()
    }

    /** `conn` is the live connection registered under its id. */
    predicate Live(conn: Connection)
      reads this`sockets
    {
      conn.id in sockets && sockets[conn.id] == conn
    }

    constructor ()
      ensures Valid()
      ensures activeUsers == map[] && userSockets == map[] && typingUsers == map[]
      ensures workspaceUsers == map[] && workspaceMessages == map[] && workspaceEditor == map[]
      ensures rooms == map[] && sockets == map[]
    {
      activeUsers := map[];
      userSockets := map[];
      typingUsers := map[];
      workspaceUsers := map[];
      workspaceMessages := map[];
      workspaceEditor := map[];
      rooms := map[];
      sockets := map[];
    }

    /** A client connects: socket.io registers a fresh connection. */
    method Connect(id: SocketId) returns (conn: Connection)
      requires Valid() && id !in sockets
      modifies this`sockets
      ensures Valid() && Live(conn) && fresh(conn)
      ensures conn.id == id && conn.userId == "" && conn.user == NO_USER && conn.currentRoom == ""
      ensures sockets == old(sockets)[id := conn]
    {
      conn := new Connection(id);
      sockets := sockets[id := conn];
    }

    /** How a socket appears in an `active-users-update` list: its user id, or
        the socket id when it has none or is gone; its display name, or "User". */
    function RosterEntryOf(s: SocketId): (e: RosterEntry)
      reads this`sockets, sockets.Values
      ensures e.id != "" || s == ""
      ensures e.displayName != ""
      ensures s !in sockets ==> e == RosterEntry(s, "User")
      ensures s in sockets ==> e.id == if sockets[s].userId != "" then sockets[s].userId else s
      ensures s in sockets ==>
        e.displayName == if sockets[s].user.displayName != "" then sockets[s].user.displayName else "User"
    {
      RosterEntry(
        if s in sockets && sockets[s].userId != "" then sockets[s].userId else s,
        if s in sockets && sockets[s].user.displayName != "" then sockets[s].user.displayName else "User")
    }

    function Roster(ids: seq<SocketId>): (r: seq<RosterEntry>)
      reads this`sockets, sockets.Values
      ensures |r| == |ids|
      ensures forall i :: 0 <= i < |ids| ==> r[i] == RosterEntryOf(ids[i])
    {
      if ids == [] then [] else [RosterEntryOf(ids[0])] + Roster(ids[1..])
    }

    /** `authenticate`: the demo token or a token the identity provider
        accepts (`verdict`, None when verification throws) binds the
        connection to a user. */
    method Authenticate(conn: Connection, token: string, verdict: Option<DecodedToken>)
      returns (out: seq<Emit>)
      requires Valid() && Live(conn)
      modifies this`activeUsers, this`userSockets, conn`userId, conn`user
      ensures Valid() && Live(conn)
      ensures token == "" ==>
        out == [Emit({conn.id}, AuthError("No token provided"))]
      ensures token != "" && token != DEMO_TOKEN && verdict.None? ==>
        out == [Emit({conn.id}, AuthError("Invalid token"))]
      ensures token == "" || (token != DEMO_TOKEN && verdict.None?) ==>
        && conn.userId == old(conn.userId) && conn.user == old(conn.user)
        && activeUsers == old(activeUsers) && userSockets == old(userSockets)
      ensures token != "" && (token == DEMO_TOKEN || verdict.Some?) ==>
        var u := if token == DEMO_TOKEN then DEMO_USER else UserOf(verdict.value);
        && conn.userId == u.id && conn.user == u
        && activeUsers == old(activeUsers)[u.id := conn.id]
        && userSockets == old(userSockets)[conn.id := u.id]
        && out == [Emit({conn.id}, Authenticated(u))]
    {
      if token == "" {
        return [Emit({conn.id}, AuthError("No token provided"))];
      }
      var u: UserInfo;
      if token == DEMO_TOKEN {
        u := DEMO_USER;
      } else if verdict.None? {
        return [Emit({conn.id}, AuthError("Invalid token"))];
      } else {
        u := UserOf(verdict.value);
      }
      conn.userId := u.id;
      conn.user := u;
      activeUsers := activeUsers[u.id := conn.id];
      userSockets := userSockets[conn.id := u.id];
      out := [Emit({conn.id}, Authenticated(u))];
    }

    /** The demo identity `join-room` and `chat-message` give an unauthenticated socket. */
    method EnsureUser(conn: Connection)
      requires Valid() && Live(conn)
      modifies conn`userId, conn`user
      ensures Valid() && Live(conn)
      ensures conn.userId == if old(conn.userId) == "" then DEMO_USER_ID else old(conn.userId)
      ensures conn.user == if old(conn.userId) == "" then DEMO_USER else old(conn.user)
    {
      if conn.userId == "" {
        conn.userId := DEMO_USER_ID;
        conn.user := DEMO_USER;
      }
    }

    /** `socket.join(slug)`, `socket.currentRoom = slug` and the socket id
        added to the room's presence list. */
    method Enter(conn: Connection, slug: Room)
      requires Valid() && Live(conn)
      modifies this`rooms, this`workspaceUsers, conn`currentRoom
      ensures Valid() && Live(conn)
      ensures conn.currentRoom == slug
      ensures rooms == Join(old(rooms), slug, conn.id)
      ensures workspaceUsers == old(workspaceUsers)[slug := Add(Presence(old(workspaceUsers), slug), conn.id)]
    {
      var present := Add(Presence(workspaceUsers, slug), conn.id);
      rooms := Join(rooms, slug, conn.id);
      conn.currentRoom := slug;
      workspaceUsers := workspaceUsers[slug := present];
    }

    /** The first half of `join-room`: the demo identity when the socket has
        none, then the current room and its typing room left. */
    method LeaveForJoin(conn: Connection)
      requires Valid() && Live(conn)
      modifies this`rooms, conn`userId, conn`user, conn`currentRoom
      ensures Valid() && Live(conn)
      ensures conn.userId == if old(conn.userId) == "" then DEMO_USER_ID else old(conn.userId)
      ensures conn.user == if old(conn.userId) == "" then DEMO_USER else old(conn.user)
      ensures conn.currentRoom == ""
      ensures rooms == LeaveCurrent(old(rooms), old(conn.currentRoom), conn.id)
    {
      var left := LeaveCurrent(rooms, conn.currentRoom, conn.id);
      EnsureUser(conn);
      if conn.currentRoom != "" {
        rooms := left;
        conn.currentRoom := "";  // overwritten by Enter; keeps the registry consistent in between
      }
    }

    /** `join-room`. */
    method JoinRoom(conn: Connection, slug: Room, now: nat) returns (out: seq<Emit>)
      requires Valid() && Live(conn)
      modifies this`rooms, this`workspaceUsers, conn`userId, conn`user, conn`currentRoom
      ensures Valid() && Live(conn)
      ensures conn.userId == if old(conn.userId) == "" then DEMO_USER_ID else old(conn.userId)
      ensures conn.user == if old(conn.userId) == "" then DEMO_USER else old(conn.user)
      ensures conn.currentRoom == slug
      ensures rooms == Join(LeaveCurrent(old(rooms), old(conn.currentRoom), conn.id), slug, conn.id)
      ensures workspaceUsers == old(workspaceUsers)[slug := Add(Presence(old(workspaceUsers), slug), conn.id)]
      ensures conn.id in Members(rooms, slug) && conn.id in workspaceUsers[slug]
      ensures out == [
        Emit(Members(rooms, slug) - {conn.id}, UserJoined(conn.user, |workspaceUsers[slug]|)),
        Emit({conn.id}, ActiveUsersUpdate(|workspaceUsers[slug]|, Roster(workspaceUsers[slug]))),
        Emit({conn.id}, RecentMessages(History(workspaceMessages, slug))),
        Emit({conn.id}, EditorContent(Stored(workspaceEditor, slug).GetOr(EditorState("", 1, conn.userId, now))))]
    {
      LeaveForJoin(conn);
      Enter(conn, slug);
      var present := workspaceUsers[slug];
      var count := |present|;
      out := [
        Emit(Members(rooms, slug) - {conn.id}, UserJoined(conn.user, count)),
        Emit({conn.id}, ActiveUsersUpdate(count, Roster(present))),
        Emit({conn.id}, RecentMessages(History(workspaceMessages, slug))),
        Emit({conn.id}, EditorContent(Stored(workspaceEditor, slug).GetOr(EditorState("", 1, conn.userId, now))))];
    }

    /** The `forEach` over the room's members: one `new-message` emission to
        each member that is still a live connection. Changes nothing. */
    method DeliverToRoom(room: Room, ev: Event) returns (out: seq<Emit>)
      ensures forall s :: Inbox(out, s) == if s in Members(rooms, room) && s in sockets.Keys then [ev] else []
    {
      var live := sockets.Keys;
      var members := Members(rooms, room);
      var pending := members;
      out := [];
      while pending != {}
        invariant pending <= members
        invariant forall q :: Inbox(out, q) == if q in members - pending && q in live then [ev] else []
        decreases |pending|
      {
        var s :| s in pending;
        var sent := if s in live then [Emit({s}, ev)] else [];
        DeliverOne(out, sent, members, pending, s, live, ev);
        out := out + sent;
        pending := pending - {s};
      }
    }

    /** The first half of `chat-message`: the demo identity when the socket
        has none, then the message's room entered unless it is already the
        current one. A mismatched room is entered without leaving the old one. */
    method AutoJoin(conn: Connection, slug: Room)
      requires Valid() && Live(conn)
      modifies this`rooms, this`workspaceUsers, conn`userId, conn`user, conn`currentRoom
      ensures Valid() && Live(conn)
      ensures conn.userId == if old(conn.userId) == "" then DEMO_USER_ID else old(conn.userId)
      ensures conn.user == if old(conn.userId) == "" then DEMO_USER else old(conn.user)
      ensures conn.currentRoom == slug
      ensures conn.id in Members(rooms, slug)
      ensures old(conn.currentRoom) == "" || old(conn.currentRoom) != slug ==>
        && rooms == Join(old(rooms), slug, conn.id)
        && workspaceUsers == old(workspaceUsers)[slug := Add(Presence(old(workspaceUsers), slug), conn.id)]
      ensures old(conn.currentRoom) != "" && old(conn.currentRoom) == slug ==>
        rooms == old(rooms) && workspaceUsers == old(workspaceUsers)
    {
      EnsureUser(conn);
      if conn.currentRoom == "" {
        Enter(conn, slug);
      }
      if conn.currentRoom != slug {
        Enter(conn, slug);
      }
    }

    /** `chat-message` storing a post: push onto the room's history, then
        drop the oldest past the limit. */
    method Record(slug: Room, m: Message)
      requires Valid()
      modifies this`workspaceMessages
      ensures Valid()
      ensures workspaceMessages == old(workspaceMessages)[slug := Post(History(old(workspaceMessages), slug), m)]
    {
      workspaceMessages := workspaceMessages[slug := Post(History(workspaceMessages, slug), m)];
    }

    /** `chat-message` sending a stored post: `new-message` to every member of
        the room, the sender included, then `message-sent` to the sender. */
    method Announce(conn: Connection, m: Message, slug: Room, now: nat) returns (out: seq<Emit>)
      requires Valid() && conn.id in Members(rooms, slug)
      ensures ChatDelivered(out, Members(rooms, slug), conn.id, m, now)
    {
      var delivered := DeliverToRoom(slug, NewMessage(m));
      var confirm := Emit({conn.id}, MessageSent(m.id, now));
      BroadcastThenConfirm(delivered, confirm, Members(rooms, slug), sockets.Keys, NewMessage(m));
      out := delivered + [confirm];
    }

    /** `chat-message`. */
    method ChatMessage(conn: Connection, content: Option<string>, slug: Room, now: nat)
      returns (out: seq<Emit>)
      requires Valid() && Live(conn)
      modifies this`rooms, this`workspaceUsers, this`workspaceMessages, conn`userId, conn`user, conn`currentRoom
      ensures Valid() && Live(conn)
      ensures conn.userId == if old(conn.userId) == "" then DEMO_USER_ID else old(conn.userId)
      ensures conn.user == if old(conn.userId) == "" then DEMO_USER else old(conn.user)
      ensures conn.currentRoom == slug
      ensures conn.id in Members(rooms, slug)
      ensures old(conn.currentRoom) == "" || old(conn.currentRoom) != slug ==>
        && rooms == Join(old(rooms), slug, conn.id)
        && workspaceUsers == old(workspaceUsers)[slug := Add(Presence(old(workspaceUsers), slug), conn.id)]
      ensures old(conn.currentRoom) != "" && old(conn.currentRoom) == slug ==>
        rooms == old(rooms) && workspaceUsers == old(workspaceUsers)
      ensures Blank(content) ==> out == [] && workspaceMessages == old(workspaceMessages)
      ensures !Blank(content) ==>
        var m := ChatMessageOf(UserInfo(conn.userId, conn.user.displayName, conn.user.photoURL), content.value, now);
        && workspaceMessages == old(workspaceMessages)[slug := Post(History(old(workspaceMessages), slug), m)]
        && ChatDelivered(out, Members(rooms, slug), conn.id, m, now)
    {
      AutoJoin(conn, slug);
      out := PostMessage(conn, content, slug, now);
    }

    /** The second half of `chat-message`, for a sender inside the room:
        a blank message is dropped; any other is stored and sent. */
    method PostMessage(conn: Connection, content: Option<string>, slug: Room, now: nat)
      returns (out: seq<Emit>)
      requires Valid() && conn.id in Members(rooms, slug)
      modifies this`workspaceMessages
      ensures Valid()
      ensures Blank(content) ==> out == [] && workspaceMessages == old(workspaceMessages)
      ensures !Blank(content) ==>
        var m := ChatMessageOf(UserInfo(conn.userId, conn.user.displayName, conn.user.photoURL), content.value, now);
        && workspaceMessages == old(workspaceMessages)[slug := Post(History(old(workspaceMessages), slug), m)]
        && ChatDelivered(out, Members(rooms, slug), conn.id, m, now)
    {
      if Blank(content) {
        return [];
      }
      var m := ChatMessageOf(UserInfo(conn.userId, conn.user.displayName, conn.user.photoURL), content.value, now);
      out := Announce(conn, m, slug, now);
      Record(slug, m);
    }

    /** `editor-update`. */
    method EditorUpdate(conn: Connection, content: Option<string>, slug: Room, clientVersion: int, now: nat)
      returns (out: seq<Emit>)
      requires Valid() && Live(conn)
      modifies this`workspaceEditor
      ensures Valid() && Live(conn)
      ensures conn.userId == "" || conn.currentRoom == "" || conn.currentRoom != slug ==>
        out == [Emit({conn.id}, Error("Not in workspace"))] && workspaceEditor == old(workspaceEditor)
      ensures conn.userId != "" && conn.currentRoom != "" && conn.currentRoom == slug ==>
        var st := Accept(Stored(old(workspaceEditor), slug), Edit(content, clientVersion, conn.userId, now));
        && workspaceEditor == old(workspaceEditor)[slug := st]
        && out == [Emit(Members(rooms, slug), EditorUpdated(st))]
        && conn.id in Members(rooms, slug)
    {
      if conn.userId == "" || conn.currentRoom == "" || conn.currentRoom != slug {
        return [Emit({conn.id}, Error("Not in workspace"))];
      }
      var st := Accept(Stored(workspaceEditor, slug), Edit(content, clientVersion, conn.userId, now));
      workspaceEditor := workspaceEditor[slug := st];
      out := [Emit(Members(rooms, slug), EditorUpdated(st))];
    }

    /** `typing-start`: no check that the user was already typing. */
    method TypingStart(conn: Connection, slug: Room) returns (out: seq<Emit>)
      requires Valid() && Live(conn)
      modifies this`typingUsers
      ensures Valid() && Live(conn)
      ensures conn.userId == "" || conn.currentRoom == "" || slug != conn.currentRoom ==>
        out == [] && typingUsers == old(typingUsers)
      ensures conn.userId != "" && conn.currentRoom != "" && slug == conn.currentRoom ==>
        && typingUsers == old(typingUsers)[slug := (if slug in old(typingUsers) then old(typingUsers)[slug] else {}) + {conn.userId}]
        && out == [Emit(Members(rooms, slug) - {conn.id}, UserTyping(conn.userId, conn.user.displayName, true))]
    {
      if conn.userId == "" || conn.currentRoom == "" || slug != conn.currentRoom {
        return [];
      }
      var typing := if slug in typingUsers then typingUsers[slug] else {};
      typingUsers := typingUsers[slug := typing + {conn.userId}];
      out := [Emit(Members(rooms, slug) - {conn.id}, UserTyping(conn.userId, conn.user.displayName, true))];
    }

    /** `typing-stop`: notifies whenever the room has a typing set, even one
        without this user. */
    method TypingStop(conn: Connection, slug: Room) returns (out: seq<Emit>)
      requires Valid() && Live(conn)
      modifies this`typingUsers
      ensures Valid() && Live(conn)
      ensures conn.userId == "" || conn.currentRoom == "" || slug != conn.currentRoom || slug !in old(typingUsers) ==>
        out == [] && typingUsers == old(typingUsers)
      ensures conn.userId != "" && conn.currentRoom != "" && slug == conn.currentRoom && slug in old(typingUsers) ==>
        && typingUsers == old(typingUsers)[slug := old(typingUsers)[slug] - {conn.userId}]
        && out == [Emit(Members(rooms, slug) - {conn.id}, UserTyping(conn.userId, conn.user.displayName, false))]
    {
      if conn.userId == "" || conn.currentRoom == "" || slug != conn.currentRoom {
        return [];
      }
      if slug in typingUsers {
        typingUsers := typingUsers[slug := typingUsers[slug] - {conn.userId}];
        out := [Emit(Members(rooms, slug) - {conn.id}, UserTyping(conn.userId, conn.user.displayName, false))];
      } else {
        out := [];
      }
    }

    /** What socket.io does when a client goes away, before the handler
        runs: the connection leaves every room and its table. */
    method Drop(conn: Connection)
      requires Valid() && Live(conn)
      modifies this`sockets, this`rooms
      ensures Valid() && conn.id !in sockets
      ensures sockets == old(sockets) - {conn.id}
      ensures rooms == LeaveAll(old(rooms), conn.id)
    {
      sockets := sockets - {conn.id};
      rooms := LeaveAll(rooms, conn.id);
    }

    /** The `disconnect` handler proper, for a connection socket.io has
        already dropped: nobody in a room is `conn` any more. */
    method Depart(conn: Connection) returns (out: seq<Emit>)
      requires Valid() && conn.id !in sockets
      requires forall r :: conn.id !in Members(rooms, r)
      modifies this`activeUsers, this`userSockets, this`workspaceUsers, this`typingUsers
      ensures Valid()
      ensures conn.userId == "" ==>
        && activeUsers == old(activeUsers) && userSockets == old(userSockets)
        && workspaceUsers == old(workspaceUsers) && typingUsers == old(typingUsers)
      ensures conn.userId != "" ==>
        activeUsers == old(activeUsers) - {conn.userId} && userSockets == old(userSockets) - {conn.id}
      ensures var room := conn.currentRoom;
        if conn.userId != "" && room != "" && room in old(workspaceUsers) then
          var left := Delete(old(workspaceUsers)[room], conn.id);
          && workspaceUsers == old(workspaceUsers)[room := left]
          && out == [Emit(Members(rooms, room), UserLeft(conn.userId, conn.user.displayName, |left|)),
                     Emit(Members(rooms, room), ActiveUsersUpdate(|left|, Roster(left)))]
        else
          workspaceUsers == old(workspaceUsers) && out == []
      ensures var room := conn.currentRoom;
        if conn.userId != "" && room != "" && room in old(typingUsers) then
          typingUsers == old(typingUsers)[room := old(typingUsers)[room] - {conn.userId}]
        else
          typingUsers == old(typingUsers)
    {
      out := [];
      var user, room := conn.userId, conn.currentRoom;
      if user != "" {
        activeUsers := activeUsers - {user};
        userSockets := userSockets - {conn.id};
        if room != "" {
          if room in typingUsers {
            typingUsers := typingUsers[room := typingUsers[room] - {user}];
          }
          if room in workspaceUsers {
            var left := Delete(workspaceUsers[room], conn.id);
            workspaceUsers := workspaceUsers[room := left];
            var others := Members(rooms, room) - {conn.id};
            assert others == Members(rooms, room);
            out := [Emit(others, UserLeft(user, conn.user.displayName, |left|)),
                    Emit(others, ActiveUsersUpdate(|left|, Roster(left)))];
          }
        }
      }
    }

    /** `disconnect`: socket.io's cleanup, then the handler. */
    method Disconnect(conn: Connection) returns (out: seq<Emit>)
      requires Valid() && Live(conn)
      modifies this`sockets, this`rooms, this`activeUsers, this`userSockets, this`workspaceUsers, this`typingUsers
      ensures Valid() && conn.id !in sockets
      ensures sockets == old(sockets) - {conn.id}
      ensures rooms == LeaveAll(old(rooms), conn.id)
      ensures conn.userId == "" ==>
        && activeUsers == old(activeUsers) && userSockets == old(userSockets)
        && workspaceUsers == old(workspaceUsers) && typingUsers == old(typingUsers)
      ensures conn.userId != "" ==>
        activeUsers == old(activeUsers) - {conn.userId} && userSockets == old(userSockets) - {conn.id}
      ensures var room := conn.currentRoom;
        if conn.userId != "" && room != "" && room in old(workspaceUsers) then
          var left := Delete(old(workspaceUsers)[room], conn.id);
          && workspaceUsers == old(workspaceUsers)[room := left]
          && out == [Emit(Members(rooms, room), UserLeft(conn.userId, conn.user.displayName, |left|)),
                     Emit(Members(rooms, room), ActiveUsersUpdate(|left|, Roster(left)))]
        else
          workspaceUsers == old(workspaceUsers) && out == []
      ensures var room := conn.currentRoom;
        if conn.userId != "" && room != "" && room in old(typingUsers) then
          typingUsers == old(typingUsers)[room := old(typingUsers)[room] - {conn.userId}]
        else
          typingUsers == old(typingUsers)
    {
      Drop(conn);
      out := Depart(conn);
    }
  }
}
