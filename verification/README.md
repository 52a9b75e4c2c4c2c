# Verified model of the chat server and its Android client

A Dafny model of the chat application: the C++ server that keeps users, friends,
groups and queues in shared maps under one mutex, the wire protocol between it
and the client, the client's message store, and the byte codecs both sides use.
`dafny verify dfyconfig.toml` checks everything.

## The modules

- `Social`, `Directory`, `Critical`: the shared maps as values, and each stretch
  of code under `g_mutex` as a function on them. `ServerState` is the same as an
  object whose methods update its fields.
- `Machine`: the server as a labelled state machine without a database. A
  connection is a thread; a handler is a list of critical sections still to
  enter; every interleaving of critical sections is a sequence of labels.
  `Delivery`, `Routing`, `Friendship`, `Administration`, `Groups`, `Permissions`
  and `Restart` prove what all runs keep; `History` is what their results share.
- `FriendStore`: friendship with the database on, as a cache beside three tables
  whose calls apply fully or not at all, with restarts.
- `UsersFile`, `Text`: the file used without a database.
- `Bytes`, `Wire`, `Stream`, `Reassembly`: the 32-byte header on hosts of either
  byte order, partial sends and receives, and the client's frame buffer.
- `Dedup`: the client's message store and its 15-second window.
- `Crc32`, `Base64`, `Sha256`, `KeyValue`, `Roster`: the codecs; `Sha256Answer` and
  `Sha256Constants` fix the hash by its known answer and its constants by their
  definition.

## How to read it

Iteration orders of hash maps, clock readings, random bytes, the sizes of partial
transfers and the outcomes of database calls are parameters, so a theorem over all
arguments is a theorem over all of them. Notice texts, which depend on names and
the clock, come with the request. A thread may run between any two critical
sections of another, so a value read in one section may be stale in the next.

Where the source and its own comments disagree, the model follows the code:

- The reply to GET_CONVERSATION_HISTORY is commented as chronological in two
  places; the two reversals cancel and the reply is newest first (`HistoryReply`).
  `NewestFirstTwice` needs that order, and `OldestFirstChanges` shows that the
  commented one would not do.
- `receiveHistoryMessage` is commented as keeping the earliest timestamp; the row
  keeps the timestamp it has.
- The client's `ntohll` is commented as conversion from network order; it
  exchanges the halves of what `htonll` wrote (`NtohllHtonll`).
- CREATE_GROUP is commented as writing its group a second time for the database
  only; it does so without a database too (`RewriteGroup`).

Properties that the code does not have, with the exact condition under which it
does: `RoutedIffDisciplined` (a connection may log in twice), `RestoresIffClean`
(tabs and newlines in the users file), `NicksAlignedIff`, `NamesRoundTrip`,
`RoundTripIffClean`, `LoadTwiceFromStart`, `CoveredIff`, `SpacedRunIff`,
`SymmetricIff`, `DisjointIffMergesClean`.

## Model

| member | source | states |
|---|---|---|
| `Social.RunSound` | server-cpp/src/message_handler.cpp:449-590 | After every sequence of friend requests, acceptances, declines and unfriendings the maps are sound (friendship symmetric, pending lists duplicate-free and without their owner, no request between friends), and for every pair they show exactly what a three-flag automaton of that pair alone shows |
| `Social.SoundMeaning` | server-cpp/src/message_handler.cpp:449-590 | What soundness says, pair by pair |
| `Social.ApplyRefinesPair` | server-cpp/src/message_handler.cpp:449-590 | One critical section moves each ordered pair as the pair automaton does and disturbs no pair it does not name |
| `Social.ApplySound` | server-cpp/src/message_handler.cpp:449-590 | Every one of the four critical sections keeps a sound graph sound, from any sound graph |
| `Social.FriendsByHistory` | server-cpp/src/message_handler.cpp:525-590 | Two users are friends exactly when some acceptance between them has no later unfriending between them |
| `Social.PendingByHistory` | server-cpp/src/message_handler.cpp:449-590 | A request is pending exactly when it was made while the two were not friends and no acceptance, decline or unfriending has ended it |
| `Social.Erase` | server-cpp/src/message_handler.cpp:537-542 | The erase-remove loop takes out that id |
| `Social.WithoutKeepsOrder` | server-cpp/src/message_handler.cpp:537-542 | What it leaves keeps its order |
| `Social.ArrivalOrder` | server-cpp/src/message_handler.cpp:478-487 | Requests wait in order of arrival: a new one goes last, and one that ends leaves the others in order |
| `Directory.RegisterConsistent` | server-cpp/src/message_handler.cpp:100-145 | REGISTER is refused exactly for an empty name or password or a taken name; otherwise it keeps the two indexes inverse bijections with every id positive and below the next id, hands out an id never used, adds exactly one user and changes no other |
| `Routing.RunTables` | server-cpp/src/message_handler.cpp:106-145 | In every run under every interleaving of critical sections: consistent user table, and a friend graph that is the run of its recorded acts and therefore sound |
| `Friendship.StepAct` | server-cpp/src/message_handler.cpp:417-590 | Every step performs exactly the friend act its request and session name: FRIEND_ACCEPT of o by u is an acceptance of o by u, and likewise for the others and for the second section of a request by name |
| `Friendship.FriendsByLabels` | server-cpp/src/message_handler.cpp:518-590 | In every run two users are friends exactly when some FRIEND_ACCEPT request between them has no later UNFRIEND request between them |
| `Friendship.PendingByLabels` | server-cpp/src/message_handler.cpp:417-590 | In every run u waits in the list of v exactly when a request of u to v was made while the requests before it left them no friends, and no acceptance, unfriending or decline has ended it |
| `UsersFile.SaveUsers` | server-cpp/src/persistence.cpp:8-22 | The written file is one line per user, in the iteration order of the hash map |
| `UsersFile.LoadUsers` | server-cpp/src/persistence.cpp:24-65 | The line loop computes the table the file text denotes, or fails where a number does not parse |
| `UsersFile.LineExample` | server-cpp/src/persistence.cpp:15-19 | The order of the fields of a line |
| `UsersFile.RestoresIffClean` | server-cpp/src/persistence.cpp:8-65 | For every consistent table and every order of its users, saving and loading gives back that table and its next id if and only if no field holds a tab or a newline |
| `UsersFile.RestartReusesId` | server-cpp/src/message_handler.cpp:122-136 | The file is written before the new user is in the table, so a restart right after a REGISTER finds the table before it and hands its id out again |
| `Restart.SavedByHistory` | server-cpp/src/message_handler.cpp:122-136 | At every lock boundary of every run: the users file is of the table before the last successful REGISTER, the table is that one with its user added, and the run has written no file exactly when nobody has registered in it |
| `Restart.RestartLosesLastUser` | server-cpp/src/persistence.cpp:24-65 | For runs whose registrations hold no tab or newline, loading the file at any boundary gives exactly the table before the last registration, whose one further user is lost and whose id comes next |
| `ServerState.Globals.Register` | server-cpp/src/message_handler.cpp:94-145 | The registration section does to the global maps what the specification function does to their value; refused for empty or taken names |
| `ServerState.Globals.Login` | server-cpp/src/message_handler.cpp:169-216 | Wrong credentials change nothing; otherwise the user is online at this socket and its queue moves, whole, into the handler |
| `ServerState.Globals.GoOffline` | server-cpp/src/message_handler.cpp:260-265 | Afterwards the user of a logged-in session is offline, everyone else is as before, and nothing else has changed |
| `ServerState.Globals.FindUser` | server-cpp/src/message_handler.cpp:421-436 | The scan of the id index finds, in any iteration order, the one user the name index holds |
| `ServerState.Globals.FriendRequest` | server-cpp/src/message_handler.cpp:449-487 | New state as in the friend graph specification; refused between friends or on a repeat |
| `ServerState.Globals.FriendAccept` | server-cpp/src/message_handler.cpp:525-547 | Clears both pending entries and links both ways |
| `ServerState.Globals.FriendDecline` | server-cpp/src/message_handler.cpp:557-573 | Takes that one request out of that one pending list; every other request and all friendships stay |
| `ServerState.Globals.Unfriend` | server-cpp/src/message_handler.cpp:575-590 | Unlinks both ways and clears both pending entries |
| `ServerState.Globals.EnqueueOffline` | server-cpp/src/server_state.cpp:22-25 | For every user, the queue afterwards: one message longer at its end for this user, the same for all others |
| `ServerState.Globals.OpenGroup` | server-cpp/src/message_handler.cpp:826-837 | For all groups and users: the next id goes to a group whose one admin and owner is the creator, whose members are the creator and the invited, with that name and no nicknames; every other group stays |
| `ServerState.Globals.RewriteGroup` | server-cpp/src/message_handler.cpp:843-864 | The second write of CREATE_GROUP sets the same members, the one admin, owner and name, whatever happened to the group since the first; every other group stays |
| `ServerState.Globals.Admit` | server-cpp/src/message_handler.cpp:951-954 | Exactly one seat is filled in, for all groups and users; no admin flag changes; a group that is gone comes back |
| `ServerState.Globals.Join` | server-cpp/src/message_handler.cpp:1042-1050 | The seat is filled exactly when the group exists; no group appears and no admin flag changes |
| `ServerState.Globals.Rename` | server-cpp/src/message_handler.cpp:1085-1099 | Succeeds exactly for a member; changes one name and no seat or flag of any group |
| `ServerState.Globals.SetNickname` | server-cpp/src/message_handler.cpp:1162-1183 | Succeeds exactly when the named user is a member, whoever asks; changes one nickname and no seat or flag |
| `ServerState.Globals.Expel` | server-cpp/src/message_handler.cpp:1288-1296 | For all groups and users: exactly that seat and that flag go, and the group stays even when it is empty now |
| `ServerState.Globals.Promote` | server-cpp/src/message_handler.cpp:1408-1412 | The flag is set exactly when the group exists, member or not; no seat changes |
| `ServerState.Globals.Leave` | server-cpp/src/message_handler.cpp:1468-1485 | Exactly that seat goes; the group goes exactly when no other member was left, and otherwise every admin flag survives, the leaver's included |
| `ServerState.Globals.Gather` | server-cpp/src/message_handler.cpp:1432-1435 | The members at that moment; reading a missing group creates it, which changes no seat and no flag |
| `Delivery.StepBalanced` | server-cpp/src/message_handler.cpp:1508-1567 | Every step of every thread keeps the balance: for each delivery job, copies handed out plus copies still owed make up its audience, and only its own handler owes any |
| `Delivery.RunBalanced` | server-cpp/src/message_handler.cpp:1508-1567 | That balance holds in every run, and each copy handed out carries its job's message |
| `Delivery.FanOutExactlyOnce` | server-cpp/src/message_handler.cpp:1555-1567 | Once a handler owes nothing for a job, each user has been handed exactly as many copies as the job's audience names it, and nobody else any |
| `Delivery.DirectMessageExactlyOnce` | server-cpp/src/message_handler.cpp:592-626 | A DIRECT_MESSAGE accepted anywhere in any run: when its handler is done, its recipient has one copy of that text from that sender, and nobody else has any |
| `Delivery.NoticeExactlyOnce` | server-cpp/src/message_handler.cpp:1430-1460 | A broadcast anywhere in any run: of each of its notices every user who is a member at that section gets one copy, and nobody else any |
| `Delivery.RemovalNoticeExactlyOnce` | server-cpp/src/message_handler.cpp:1333-1352 | The notice of a removal: one copy for the user who was to be removed, none for anyone else |
| `Delivery.GroupMessageExactlyOnce` | server-cpp/src/message_handler.cpp:1501-1567 | A GROUP_MESSAGE accepted anywhere in any run, whatever other threads do meanwhile: when its handler is done, each member at acceptance other than the sender has one copy, live or queued, and nobody else has any |
| `Delivery.CopyFollowsLookup` | server-cpp/src/message_handler.cpp:1555-1567 | Every copy handed out in any run: the handler that owns its job looked its user up, after the job existed, and found the socket the copy went to, or none if it was queued; handing it over was that handler's next act, with other threads free to run in between |
| `Delivery.QueueByHistory` | server-cpp/src/server_state.cpp:22-25 | At every boundary a user, online or not, has queued messages exactly when a copy was queued for the user since the user's last login; a stale lookup can do that to a user who is online |
| `Delivery.OfflineConservation` | server-cpp/src/message_handler.cpp:211-256 | In every run and for every user, the messages ever queued are, in order, those drained by logins followed by those still queued |
| `Routing.AuthenticateExact` | server-cpp/src/message_handler.cpp:159-178 | A login keeps every online entry naming an open connection of its own user if and only if the connection is not the live entry of someone else |
| `Routing.StepRoutedExact` | server-cpp/src/message_handler.cpp:1582-1588 | For every kind of step: it keeps the routing sound if and only if it is not such a login |
| `Routing.RoutedIffDisciplined` | server-cpp/src/message_handler.cpp:139-140 | Over whole runs: routing is sound at every lock boundary if and only if every authentication happens on a clean connection |
| `Routing.OnceIsRouted` | server-cpp/src/message_handler.cpp:176-178 | Connections that authenticate at most once are always routed soundly |
| `Routing.RoutedInjective` | server-cpp/src/message_handler.cpp:139-140 | Sound routing is injective: two online users never share a socket |
| `Routing.ReauthenticationMisroutes` | server-cpp/src/message_handler.cpp:94-145 | A run of two registrations on one connection whose online map is not sound |
| `Routing.OnlineByHistory` | server-cpp/src/message_handler.cpp:1582-1588 | A user is online at a socket exactly when some login put it there and no later login, logout or cleanup touched the entry |
| `Routing.SessionsByHistory` | server-cpp/src/message_handler.cpp:22-31 | In every run a connection is a session of a user exactly when its last opening, login, registration or closing made it so; it opens for nobody, and a logout does not change whose it is |
| `Administration.AdminProvenance` | server-cpp/src/message_handler.cpp:1379-1412 | In every reachable state every admin flag is linked to the creator of its group by a chain of MAKE_ADMIN requests, each made by a user who was admin at that moment, although the write happens in a later critical section |
| `Groups.AdminsByHistory` | server-cpp/src/message_handler.cpp:826-863 | In every run u is an admin of a group exactly when some step set that flag and no later one cleared it: both writes of CREATE_GROUP set it for the creator and clear it for everyone else, MAKE_ADMIN sets it, removal and the deletion by the last member clear it |
| `Groups.FlagStep` | server-cpp/src/message_handler.cpp:1379-1485 | The effect of every step on every admin flag |
| `Groups.NamesByHistory` | server-cpp/src/message_handler.cpp:1085-1099 | In every run a group is there under a name exactly when the last step that touched its record left it so: creation, renaming by a member, deletion, or the empty record that reading a missing group makes |
| `Groups.NickStep` | server-cpp/src/message_handler.cpp:1162-1183 | The effect of every step on every nickname |
| `Permissions.RefusedChangesNothing` | server-cpp/src/message_handler.cpp:1253-1280 | A request that fails its check leaves the whole state as it was |
| `Permissions.PermittedFollowsPlan` | server-cpp/src/message_handler.cpp:921-1010 | A request that passes its check leads to exactly the sections of a fixed table, in order, with the notices it will send |
| `Permissions.SectionsArePlanned` | server-cpp/src/message_handler.cpp:1379-1412 | Under every interleaving a section that changes friends or groups is entered only by the session that asked for it, on a request it was permitted to make when it made it |
| `Permissions.RemovalWasPermitted` | server-cpp/src/message_handler.cpp:1259-1274 | A member is removed only on the word of that member or of one who was admin when giving it |
| `Administration.GroupIdsNeverReused` | server-cpp/src/message_handler.cpp:826-828 | Two foundings with one group id are the same step of the run |
| `Administration.MembersByHistory` | server-cpp/src/message_handler.cpp:1468-1485 | A user is a member exactly when the last step that touched that seat filled it |
| `Administration.SeatStep` | server-cpp/src/message_handler.cpp:1253-1296 | Which steps fill or empty which seat, for every step of the machine |
| `FriendStore.CacheByHistory` | server-cpp/src/main.cpp:71-90 | In every run with failing store calls and restarts, the cached friends are the symmetric closure of the rows minus exactly the pairs the labels name: unfriended since start-up and not accepted again, or on a list whose read failed |
| `FriendStore.RowsByHistory` | server-cpp/src/persistence_pg.cpp:240-259 | The closure of the rows holds exactly the pairs found at first and those accepted since; nothing ever leaves it |
| `FriendStore.UsersByHistory` | server-cpp/src/message_handler.cpp:113-121 | The user rows are those found at first and those registered since |
| `FriendStore.CacheWithinStore` | server-cpp/src/message_handler.cpp:525-590 | The cache never claims a friendship the rows lack, and never one with oneself |
| `FriendStore.SymmetricIff` | server-cpp/src/main.cpp:85-90 | The cache is symmetric on a pair if and only if the pair was never stored or is missing both ways or neither, which holds wherever the last start-up read both lists or neither |
| `FriendStore.RestartRestores` | server-cpp/src/main.cpp:85-90 | A restart that reads a list brings back every friendship ever accepted, whatever was unfriended in between |
| `FriendStore.PendingNoRepeats` | server-cpp/src/message_handler.cpp:193-203 | Pending lists stay duplicate-free in database mode, whatever is merged into them |
| `FriendStore.RequestRowsByHistory` | server-cpp/src/persistence_pg.cpp:351-400 | A request row is there exactly when the last label that touched it wrote it; an acceptance touches only the request it answers, so a crossing one keeps its row |
| `FriendStore.PendingByHistory` | server-cpp/src/message_handler.cpp:449-590 | With the database on, the labels alone decide every place of every pending list: filled by a request between strangers or by a merge, emptied by acceptance, decline, unfriending or restart |
| `FriendStore.DisjointStepIff` | server-cpp/src/message_handler.cpp:193-203 | One step keeps friends and pending requests apart if and only if it is not a merge that names a friend |
| `FriendStore.DisjointIffMergesClean` | server-cpp/src/message_handler.cpp:193-203 | Over whole runs with failing calls and restarts: no two friends have a pending request at any boundary if and only if no LOGIN and no GET_FRIENDS_LIST merges a request of a friend, which the labels before it decide |
| `FriendStore.FriendsYetPending` | server-cpp/src/persistence_pg.cpp:364-366 | A run that ends with two users who are friends and have a pending request |
| `FriendStore.Server.AcceptFriendRequest` | server-cpp/src/persistence_pg.cpp:351-384 | All or nothing: fails on one user twice, an unknown user or an unavailable store, else adds the row in canonical order and deletes the request |
| `FriendStore.Server.FriendAccept` | server-cpp/src/message_handler.cpp:518-555 | The handler changes cache and store together, or neither |
| `FriendStore.Server.FriendDecline` | server-cpp/src/message_handler.cpp:557-573 | The cache forgets the request even when the store does not |
| `FriendStore.Server.EndFriendship` | server-cpp/src/message_handler.cpp:575-590 | Only the cache forgets the friendship |
| `FriendStore.Server.FriendRequest` | server-cpp/src/message_handler.cpp:449-487 | Refused between cached friends, on a pending row that was read, and when the row cannot be written |
| `FriendStore.MergeGoesBehind` | server-cpp/src/message_handler.cpp:196-202 | Requests read from the database go behind those that wait already |
| `FriendStore.Server.MergeRequests` | server-cpp/src/message_handler.cpp:192-203 | Rows read from the store are appended where they are missing |
| `FriendStore.Server.Boot` | server-cpp/src/main.cpp:71-90 | The nested start-up loops leave exactly the lists that were read and no pending request |
| `Wire.CreateMessage` | app/src/main/cpp/protocol_handler.cpp:28-66 | The buffer filled at a moving position is the header of the protocol followed by the payload |
| `Wire.WriteHeader` | server-cpp/src/network_utils.cpp:33-56 | The server writes the same header, with the time in big-endian order, on a host of either byte order |
| `Wire.NtohllHtonll` | app/src/main/cpp/protocol_handler.cpp:11-23 | On every host `ntohll` after `htonll` exchanges the 32-bit halves, so it gives the value back if and only if the halves are equal |
| `Wire.HtonllWrites` | app/src/main/cpp/protocol_handler.cpp:11-15 | The bytes put on the wire: big-endian from a little-endian host, halves exchanged from a big-endian one |
| `Wire.NtohllReads` | app/src/main/cpp/protocol_handler.cpp:18-22 | What the client makes of eight big-endian bytes, on either host |
| `Wire.ClientRoundTrip` | app/src/main/cpp/protocol_handler.cpp:68-139 | `parseMessage` gives back every field of `createMessage` except the time, whose halves are exchanged |
| `Wire.ClientReadsServer` | app/src/main/cpp/protocol_handler.cpp:68-139 | `parseMessage` gives back every field of a server frame, the time exactly on a big-endian host only |
| `Wire.FrameExample` | server-cpp/src/network_utils.cpp:33-56 | The layout in bytes: CHAT, version 1, type, length, time, user, checksum, padding, payload |
| `Wire.RejectedIff` | app/src/main/cpp/protocol_handler.cpp:68-120 | The client refuses exactly a text that is too short, not CHAT, not version 1, or shorter than its length field says in 32 bits |
| `Stream.Socket.RecvAll` | server-cpp/src/network_utils.cpp:11-20 | Whatever the pieces, the next bytes of the stream, or failure exactly when it ends before them; the size of a piece may differ at every place of the stream |
| `Stream.Peer.SendAll` | app/src/main/cpp/socket_manager.cpp:81-102 | Whatever the pieces, every byte goes out once and in order |
| `Stream.Socket.ReceiveRequest` | server-cpp/src/message_handler.cpp:31-85 | Header, check, payload: the first request the stream denotes, or none |
| `Stream.Socket.Serve` | server-cpp/src/message_handler.cpp:31-85 | The handler loop dispatches the list of requests the stream denotes |
| `Stream.EndToEnd` | server-cpp/src/message_handler.cpp:31-85 | The bytes of any list of client messages denote exactly that list up to its first LOGOUT: type, user, payload, and the time exact from a little-endian host |
| `Stream.Session` | server-cpp/src/message_handler.cpp:31-85 | The same through the running loops, for every way of cutting the whole session into sends and, independently, into receives |
| `Stream.NothingDispatchedIff` | server-cpp/src/message_handler.cpp:31-85 | The server takes nothing from a stream exactly when it starts with too few bytes, a bad header or a cut payload |
| `Stream.LogoutEnds` | server-cpp/src/message_handler.cpp:260-272 | Type 3 ends the session, and no other type does |
| `Reassembly.Receiver.Receive` | app/src/main/cpp/socket_manager.cpp:158-191 | One received chunk: the frames at the front of the buffer go to the callback, the rest stays; the loop ends because each frame takes at least 32 bytes |
| `Reassembly.Receiver.ReceiveAll` | app/src/main/cpp/socket_manager.cpp:152-199 | A whole run of the loop delivers the frames of the concatenated chunks |
| `Reassembly.SplitExtend` | app/src/main/cpp/socket_manager.cpp:158-191 | Later bytes never change what has been split off |
| `Reassembly.ChunkingIrrelevant` | app/src/main/cpp/socket_manager.cpp:158-191 | Frames delivered and bytes left over depend on the stream only, not on how it was cut |
| `Reassembly.FramesOfFlat` | app/src/main/cpp/socket_manager.cpp:158-191 | A stream of frames and an incomplete tail splits into exactly those frames and that tail |
| `Reassembly.PartWay` | app/src/main/cpp/socket_manager.cpp:158-191 | After any number of bytes of a stream of frames, the frames delivered are the first ones and the bytes held back are a strict prefix of the next |
| `Reassembly.ServerToClient` | app/src/main/cpp/socket_manager.cpp:158-191 | Whatever the chunks, the client parses exactly the messages the server sent, in order |
| `Dedup.Repository.FindLatest` | app/src/main/java/com/example/myapplication/data/dao/MessageDao.kt:39-43 | The matching row of greatest time |
| `Dedup.Repository.InsertMessage` | app/src/main/java/com/example/myapplication/data/dao/MessageDao.kt:21-22 | Appends unless the unique index is hit, and keeps it unique |
| `Dedup.Repository.ReceiveMessage` | app/src/main/java/com/example/myapplication/data/repository/ChatRepository.kt:124-204 | Both branches of a live message, as one function of the rows |
| `Dedup.Repository.ReceiveHistoryMessage` | app/src/main/java/com/example/myapplication/data/repository/ChatRepository.kt:210-242 | A history message, as the same function |
| `Dedup.Repository.LoadHistory` | app/src/main/java/com/example/myapplication/ui/activity/ChatActivity.kt:163-180 | A reply is received message by message in its order |
| `Dedup.ReceiveTwice` | app/src/main/java/com/example/myapplication/data/repository/ChatRepository.kt:124-242 | A second copy of any message changes nothing, whatever the store |
| `Dedup.NewestFirstTwice` | app/src/main/java/com/example/myapplication/data/repository/ChatRepository.kt:210-242 | Loading a newest-first batch of direct messages twice leaves the rows of loading it once, for every starting store |
| `Dedup.LoadFixpoint` | app/src/main/java/com/example/myapplication/data/repository/ChatRepository.kt:210-242 | A batch in any order changes nothing if and only if none of its messages alone would |
| `Dedup.LoadTwiceIff` | app/src/main/java/com/example/myapplication/data/repository/ChatRepository.kt:210-242 | For a batch in any order, the second load changes nothing if and only if every message is near the latest row of the loaded store or has a row of its own |
| `Dedup.LoadTwiceFromStart` | app/src/main/java/com/example/myapplication/data/repository/ChatRepository.kt:210-242 | The same condition read off the store and the batch before the first load: each message is near the time its query's latest row will end at, or its slot is taken, or a message of the batch takes it at its turn |
| `Dedup.OldestFirstChanges` | app/src/main/java/com/example/myapplication/data/repository/ChatRepository.kt:210-242 | One text at 0, 10, 20 and 40 s listed oldest first: the second load changes the store |
| `Dedup.HistoryReply` | server-cpp/src/message_handler.cpp:639-645 | The list is reversed twice, so the reply has the order of the query |
| `Dedup.LoadConversationTwice` | server-cpp/src/persistence_pg.cpp:468-504 | Asking twice for one conversation leaves what the first reply left |
| `Dedup.EveryPairCovered` | app/src/main/java/com/example/myapplication/data/repository/ChatRepository.kt:164-242 | After any mix of live, history and group messages, every direct message received has a row with its sender, recipient and text less than 15 s away |
| `Dedup.CoveredIff` | app/src/main/java/com/example/myapplication/data/repository/ChatRepository.kt:124-163 | A received message has such a row if and only if it had one before or the unique index leaves room for its own |
| `Dedup.GroupMessageLost` | app/src/main/java/com/example/myapplication/data/model/Message.kt:8-12 | The index does not hold the group: one text sent to the user and to a group at one time loses the group message |
| `Dedup.SpacedRunIff` | app/src/main/java/com/example/myapplication/data/repository/ChatRepository.kt:124-242 | When times never go back and no row matches at first, rows for one sender, receiver and text end at least 15 s apart if and only if no message of another kind is ever given such a row near the latest one; then there are at most span / 15 s + 1 |
| `Dedup.SpacedRun` | app/src/main/java/com/example/myapplication/data/repository/ChatRepository.kt:164-242 | So they do wherever only messages of that kind make such rows |
| `Dedup.WindowIs15000` | app/src/main/java/com/example/myapplication/data/repository/ChatRepository.kt:166-169 | A text up to 14999 ms from the latest row adds no row, one 15000 ms later adds one |
| `Dedup.DuplicateMarks` | app/src/main/java/com/example/myapplication/data/repository/ChatRepository.kt:170-174 | A duplicate marks the latest row as sent and delivered and changes nothing else |
| `Dedup.FirstRows` | app/src/main/java/com/example/myapplication/data/repository/ChatRepository.kt:151-162 | The columns of a new row, of either kind |
| `Dedup.PairsOwnTheirRows` | app/src/main/java/com/example/myapplication/data/repository/ChatRepository.kt:164-242 | Runs of direct messages meet that condition |
| `Dedup.GroupMessageCrowds` | app/src/main/java/com/example/myapplication/data/dao/MessageDao.kt:39-43 | The query for direct messages does not look at the group: with group messages in the run rows can be 1 ms apart |
| `Crc32.TableCorrect` | app/src/main/cpp/protocol_handler.cpp:151-184 | All 256 table entries are eight bit-steps of the reflected polynomial 0xEDB88320 |
| `Crc32.TableStep` | app/src/main/cpp/protocol_handler.cpp:186-188 | One table step is eight bit-steps on the state with the byte added |
| `Crc32.CalculateChecksum` | app/src/main/cpp/protocol_handler.cpp:147-191 | The loop computes the CRC-32 of section 8 of RFC 1952 on every buffer |
| `Crc32.Residue` | app/src/main/cpp/protocol_handler.cpp:147-191 | Every buffer followed by its own checksum, low byte first, leaves the residue 0xDEBB20E3 |
| `Crc32.CheckValue` | app/src/main/cpp/protocol_handler.cpp:147-191 | The checksum of 123456789 is 0xCBF43926 |
| `Crc32.ChecksumOfNothing` | app/src/main/cpp/protocol_handler.cpp:147-191 | The checksum of no bytes is 0 |
| `Crc32.FeedWord` | app/src/main/cpp/protocol_handler.cpp:186-188 | Up to four bytes act on the state as one word |
| `Crc32.BurstDetected` | app/src/main/cpp/protocol_handler.cpp:147-191 | Two buffers that differ only inside a window of at most four bytes have the same checksum if and only if they are equal |
| `Base64.Base64Encode` | server-cpp/src/utils.cpp:10-24 | The loop with its 32-bit accumulator writes the encoding of section 4 of RFC 4648 for every input, so wrap-around never shows |
| `Base64.Accumulate` | server-cpp/src/utils.cpp:12-20 | After every byte: whole groups written, and only the low pending bits of the accumulator matter |
| `Base64.EncodedLength` | server-cpp/src/utils.cpp:10-24 | Four characters for each started group of three bytes |
| `Base64.DecodeEncoded` | server-cpp/src/utils.cpp:10-24 | The strict decoder undoes the encoding |
| `Base64.AlphabetIs` | server-cpp/src/utils.cpp:5-8 | The 64 characters, in order |
| `Base64.TestVectors` | server-cpp/src/utils.cpp:10-24 | The test vectors of section 10 of RFC 4648 |
| `Base64.TextWithBothSigns` | server-cpp/src/utils.cpp:10-24 | A text with both signs of the alphabet |
| `Base64.TextRoundTrip` | app/src/main/java/com/example/myapplication/ui/activity/MainActivity.kt:549-552 | The same on text; encoded text holds no comma or ampersand and is empty only for no bytes |
| `KeyValue.ParseKv` | server-cpp/src/utils.cpp:28-39 | The piece-by-piece loop computes the map the string denotes |
| `KeyValue.SerializeKv` | server-cpp/src/utils.cpp:41-48 | The loop writes the items with separators between them |
| `KeyValue.ParsersAgree` | app/src/main/java/com/example/myapplication/ui/activity/ChatActivity.kt:164-167 | Splitting at `&`, splitting each piece in two at `=` and collecting the pairs agrees with the C++ parsers on every string |
| `Text.SplitInTwo` | app/src/main/java/com/example/myapplication/ui/activity/ChatActivity.kt:165-166 | `split` with limit 2 cuts at the first delimiter only |
| `KeyValue.RoundTrip` | app/src/main/cpp/message_serializer.cpp:144-179 | Keys without `=` and `&` and values without `&`: parsing a serialized list gives its last-wins map |
| `KeyValue.RoundTripIffClean` | server-cpp/src/utils.cpp:28-48 | For distinct keys that condition is exact |
| `KeyValue.FormatExample` | server-cpp/src/utils.cpp:28-48 | The format on an example with a value that holds an equals sign |
| `Text.SplitVsGetlines` | server-cpp/src/utils.cpp:32-32 | `split` and repeated `getline` differ by one empty piece at the very end, and only there |
| `Roster.BuildRoster` | server-cpp/src/message_handler.cpp:722-740 | The four texts the reply holds for a group |
| `Roster.EntriesOfAppended` | server-cpp/src/message_handler.cpp:731-732 | The reader gets the list from its first non-empty entry on |
| `Roster.NamesRoundTrip` | app/src/main/java/com/example/myapplication/ui/activity/MainActivity.kt:517-519 | Non-empty names come back index by index if and only if none holds a comma |
| `Roster.IdsRoundTrip` | app/src/main/java/com/example/myapplication/ui/activity/MainActivity.kt:509-510 | Member ids come back index by index |
| `Roster.AdminsRoundTrip` | app/src/main/java/com/example/myapplication/ui/activity/MainActivity.kt:520-522 | Admin flags come back index by index |
| `Roster.NicksAlignedIff` | app/src/main/java/com/example/myapplication/ui/activity/MainActivity.kt:513-516 | Every member gets its own nickname if and only if the first member has one or no member has |
| `Roster.RosterExample` | server-cpp/src/message_handler.cpp:722-740 | The texts of a group of two |
| `Sha256.Pad` | app/src/main/cpp/crypto_utils.cpp:112-122 | The loops append the padding of section 5.1.1 of FIPS 180-4, with the bit count in 64 bits |
| `Sha256.PaddedLength` | app/src/main/cpp/crypto_utils.cpp:112-122 | The padded length is the least multiple of 64 that is at least n + 9 |
| `Sha256.PaddingInjective` | app/src/main/cpp/crypto_utils.cpp:112-122 | Different inputs are padded differently, whatever their lengths |
| `Sha256.PrepareSchedule` | app/src/main/cpp/crypto_utils.cpp:127-140 | The array holds the message schedule of section 6.2.2, although the sum is taken in another order |
| `Sha256.RunRounds` | app/src/main/cpp/crypto_utils.cpp:142-168 | Eight rotating variables compute the 64 rounds |
| `Sha256.RegistersAreWindows` | app/src/main/cpp/crypto_utils.cpp:152-168 | The registers are windows on two recurrences that each compute a word once |
| `Sha256.UndoRound` | app/src/main/cpp/crypto_utils.cpp:152-168 | Every round can be undone |
| `Sha256.RoundsInjective` | app/src/main/cpp/crypto_utils.cpp:152-168 | For each chunk the rounds are injective on the registers |
| `Sha256.Sha256Words` | app/src/main/cpp/crypto_utils.cpp:124-177 | The loop over the chunks stays in bounds and computes the hash of the padded input |
| `Sha256Answer.DigestAbc` | app/src/main/cpp/crypto_utils.cpp:93-177 | The digest of abc is the one FIPS 180-4 implementations are validated with, by the schedule word by word and the registers round by round |
| `Sha256Answer.TextAbc` | app/src/main/cpp/crypto_utils.cpp:179-186 | And its text |
| `Sha256Constants.ConstantsFromPrimes` | app/src/main/cpp/crypto_utils.cpp:96-105 | Constant t is the first 32 bits of the fractional part of the cube root of prime t |
| `Sha256Constants.PrimesAreFirst` | app/src/main/cpp/crypto_utils.cpp:96-105 | The list behind it is in order and holds exactly the primes below 312, so it is the first 64 |
| `Sha256Constants.StartFromPrimes` | app/src/main/cpp/crypto_utils.cpp:107-111 | The start values are those bits of the square roots of the first eight primes |
| `Sha256.Sha256Text` | app/src/main/cpp/crypto_utils.cpp:179-186 | The text always has 64 digits, two for each byte of the digest |
| `Sha256.CryptoUtils.InitializeKey` | app/src/main/cpp/crypto_utils.cpp:19-36 | All 32 key bytes are the bytes of the digest; nothing of an earlier key stays |

## Left out

- Replies to the requester, live notices of requests and invitations, and USER_ONLINE / USER_OFFLINE notices: nothing is stored or counted about them.
- SEARCH_USER, GET_ALL_USERS, HEARTBEAT, DECLINE_GROUP_INVITE and the default branch: they read or answer only.
- Groups, messages and history with the database on: `FriendStore` covers users, friends and friend requests; group handlers are modelled without a database.
- libpq, SQL text, escaping, reconnection and activity logging: a store call is an abstract step that applies or does not; a COMMIT whose outcome is unknown is not modelled.
- The interval between the database read and the merge in GET_FRIENDS_LIST: `FriendStore.Sync` merges any list at all, which includes every stale one.
- `User.socket_fd`, `is_online` and `last_seen`: never read by the modelled code.
- `g_friends` and group maps from id to bool are sets of ids: without a database their values are always true.
- INVITE_TO_GROUP reads `g_groups[gid].name` without the lock for its live notice, which can create an empty group there; only the create that the same handler does under the lock shortly after is modelled.
- Reuse of a socket number between looking a user up and sending: a copy handed to a socket counts as delivered.
- Failing sends: the transfer loops are stated for sends that move at least one byte; a failing one ends the connection.
- `std::stoi` on signs, blanks and out-of-range numbers, and the exceptions it throws: `Stoi` covers a leading run of digits and its absence.
- Overflow of user ids, group ids and 64-bit differences of timestamps: numbers are unbounded there.
- Payloads of 2^32 - 32 bytes and more: the length comparison of `parseMessage` wraps; `ParseMessage` shows the wrap, the round trips exclude it.
- Row ids of the client database: a row's position stands for its id, so gaps in the generated ids do not appear; on equal timestamps in one group the first row counts as the latest.
- `markMessagesAsRead`, `deleteConversation`, `sendMessage` and the member bookkeeping of `receiveMessage`.
- Base64 decoding on the phone is the strict decoder of RFC 4648; line breaks and missing padding, which Android also takes, never occur in encoded text.
- `strtol` is modelled on two hexadecimal digits, without sign or prefix.
- `encryptAES`, `decryptAES`, `md5`, salts, JNI glue, Android screens and build files.
