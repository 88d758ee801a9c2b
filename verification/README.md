# Signalling server room registry, in Dafny

This project models the room registry of a small WebRTC signalling server for
doctor/patient video calls (`server.js`). The server keeps one in-memory table,
`activeRooms`. It maps a room id to a record holding the current doctor (or
null), a JavaScript `Map` of participants from socket id to name, and the
appointment details given at creation. Each connected socket also carries
`socket.data = {roomId, isDoctor, name}` once it has joined a room. On top of
these sit socket.io's broadcast groups, which `socket.join` and `socket.leave`
change. The server reacts to eight kinds of socket event:

- `create-room`
- `join-as-participant`
- `join-as-doctor`
- the relays `offer`, `answer` and `ice-candidate`
- `leave-room`
- `disconnect`

Each handler runs to completion on Node's event loop, so each is one atomic step
from a state to a new state plus a list of emissions.

The model has five modules:

- `JsMap` (`js_map.dfy`) models the JavaScript `Map` that holds a room's
  participants as a list of entries in insertion order, with `get`, `set` and
  `delete`. Order matters because the doctor receives the participants in
  the map's iteration order.
- `Protocol` (`protocol.dfy`) defines the room record, the socket data, the
  events and how they are addressed. It also resolves an emission to the
  sockets that receive it (`Deliveries`) and holds the `current-participants`
  projection.
- `Handlers` (`handlers.dfy`) gives every handler as a function from the old
  state to the new state and its emissions. Each function's contract states
  the handler's behaviour and shows that the state invariant is kept. It also
  holds the event dispatch (`Step`), runs of events (`Run`), and the proof that
  no run removes a room or breaks the invariant.
- `Properties` (`properties.dfy`) holds lemmas that relate several calls: a
  repeated departure, join-then-leave round trips, the last-doctor-wins and
  stale-entry behaviour, and who actually receives each message.
- `SignalingServer` (`server.dfy`) is the class `Server`. Its fields are
  `rooms`, `sockData` and `groups`, and each handler is a method that updates
  them in place and returns its emissions. Every method is proved equal to its
  function in `Handlers`.

The model follows the code as written. In particular:

- A second `join-as-doctor` replaces the doctor without any check.
- A departing doctor sets `doctor` to null even when another socket has taken
  the role since.
- `socket.data` is never cleared. A repeated leave therefore changes nothing
  further but notifies the room again.
- Rooms are never deleted.
- A room id that is the empty string is falsy in JavaScript, so a socket in that
  room can never leave it.

The intended design for this system also describes things the code does not
have: an accept/reject handshake, a one-doctor-one-patient role check with
`InvalidRoleCombination` and `UnauthorizedAcceptance` errors, deleting a room
when it empties, and clearing the doctor only when that doctor leaves. The
model leaves all of these out and follows the code.

## Model

| member | source | states |
|---|---|---|
| JsMap.Set | server.js:91 | `participants.set`: afterwards the key is present with the new value, every other key keeps its value, and a new key is appended at the end |
| JsMap.SetKeepsUnique | server.js:91 | `set` never creates a second entry for a key |
| JsMap.SetKeepsPlace | server.js:91 | `set` on a participant already present keeps every entry in its position |
| JsMap.Delete | server.js:163 | `participants.delete`: the key is gone, every other key keeps its value, no key is repeated afterwards if none was before, and deleting an absent key changes nothing |
| JsMap.DeleteKeepsOrder | server.js:163 | deleting a present key removes exactly its one entry and keeps the rest in their order |
| JsMap.DeleteUndoesSet | server.js:91 | deleting a key that `set` has just added as new gives back the original map |
| Protocol.JoinGroup | server.js:92 | `socket.join(roomId)` adds the socket to that group and to no other |
| Protocol.LeaveGroup | server.js:169 | `socket.leave(roomId)` removes the socket from that group and from no other |
| Protocol.ParticipantListInOrder | server.js:123-125 | the `current-participants` list has one `{id, name}` element per map entry, in the map's iteration order |
| Protocol.ParticipantListMatchesMap | server.js:123-126 | the list names exactly the registered participants, each with the name the map holds for it |
| Handlers.Connect | server.js:65 | a new connection changes no room and no socket data; the socket enters the group named by its own id |
| Handlers.CreateRoom | server.js:69-81 | a new id gets exactly one new room: no doctor, no participants, the given details, and `room-created` goes to the caller; an existing id leaves the table unchanged and only `room-exists` goes to the caller; socket data and groups are untouched |
| Handlers.JoinAsParticipant | server.js:84-103 | unknown room: nothing changes and the caller gets `room-not-found`; otherwise the caller is registered under its id with its name (a new id appended at the end, an existing one updated in place), other entries and the doctor are unchanged, socket data becomes `{roomId, false, name}`, the caller joins the group, and the caller gets `doctor-present` and the doctor's socket `user-joined` if there is a doctor, or the caller gets `waiting-for-doctor` if there is none |
| Handlers.JoinAsDoctor | server.js:106-127 | unknown room: nothing changes and the caller gets `room-not-found`; otherwise the doctor becomes the caller whoever held the role, participants are unchanged, socket data becomes `{roomId, true, name}`, the rest of the group gets `doctor-joined`, and the caller gets `current-participants` |
| Handlers.Depart | server.js:152-191 | without a room id in the socket data nothing changes and nothing is emitted; otherwise a doctor sets the room's doctor to null unconditionally and `doctor-left` goes to the rest of the group; a participant removes only its own entry, the others keeping their order, and `user-left` goes to the rest of the group; the socket leaves the group; socket data is never cleared, and no room is ever removed |
| Handlers.Step | server.js:65-191 | every event keeps the invariant (unique participant ids per room; a socket's recorded room exists) and keeps every room with its details; relays change no state |
| Handlers.RunKeeps | server.js:63-191 | over any sequence of events, the set of room ids only grows, appointment details never change, and the invariant holds throughout |
| Handlers.ReachableValid | server.js:63 | every state reached from the empty table satisfies the invariant |
| Properties.DepartTwice | server.js:152-191 | a second leave or disconnect from the same socket changes no state but repeats the same notification |
| Properties.ParticipantJoinThenLeave | server.js:91 | a participant that joins a room where it was not listed and then leaves restores every room exactly |
| Properties.DoctorJoinThenLeave | server.js:113 | a doctor that joins and then leaves leaves the room with no doctor, even if another doctor was there before |
| Properties.StaleDoctorClearsRole | server.js:113 | after two doctors join, the first doctor's leaving clears the role although the second is still recorded as doctor in its own socket data |
| Properties.SecondJoinLeavesStaleEntry | server.js:93 | a participant that joins a second room stays listed in the first after leaving, since `socket.data` remembers only the last room |
| Properties.EmptyRoomIdCannotBeLeft | server.js:153-154 | a socket in the room with the empty-string id is never removed: the falsy room id makes both departure handlers return at once |
| Properties.ParticipantJoinDeliveries | server.js:97-102 | when the doctor's id differs from the room id and the doctor's own group holds only the doctor, exactly the caller (`doctor-present`) and the doctor (`user-joined`) hear about the join; without a doctor only the caller hears `waiting-for-doctor` |
| Properties.DoctorJoinDeliveries | server.js:119-126 | `doctor-joined` reaches every other member of the room's group, and only the doctor receives the participant list |
| Properties.DoctorSeesRegisteredParticipants | server.js:123-126 | in every reachable state a joining doctor's `current-participants` list names exactly the room's registered participants, each once and with its registered name |
| Properties.RelayReachesOnlyTarget | server.js:130-135 | when the target's group is the target alone, an offer, answer or ICE candidate reaches exactly the target, unchanged and tagged with the caller as sender; a socket targeting itself reaches no one |
| SignalingServer.Server.constructor | server.js:63 | the server starts with an empty room table, no socket data and no groups |
| SignalingServer.Server.Connect | server.js:65 | updates the groups in place exactly as `Handlers.Connect` says |
| SignalingServer.Server.CreateRoom | server.js:69-81 | updates the room table in place and emits exactly as `Handlers.CreateRoom` says |
| SignalingServer.Server.JoinAsParticipant | server.js:84-103 | updates the table, the socket data and the groups in place and emits exactly as `Handlers.JoinAsParticipant` says |
| SignalingServer.Server.JoinAsDoctor | server.js:106-127 | updates the table, the socket data and the groups in place and emits exactly as `Handlers.JoinAsDoctor` says |
| SignalingServer.Server.Relay | server.js:130-149 | changes nothing; the message reaches every member of the group named by `target` except the caller, with the payload unchanged and the caller as sender |
| SignalingServer.Server.LeaveRoom | server.js:152-170 | updates state in place and emits exactly as `Handlers.Depart` says |
| SignalingServer.Server.Disconnect | server.js:173-191 | updates state in place and emits exactly as `Handlers.Depart` says |
| SignalingServer.Server.Depart | server.js:156-169 | the body shared by the two departure handlers, equal to `Handlers.Depart` |

## Left out

- The Express app, its `/` route, CORS and `server.listen` (server.js:1-21, 194): transport setup, not registry logic.
- The chunk upload endpoint with multer and the Azure Blob client (server.js:23-60): storage I/O through foreign libraries, unrelated to room state.
- `console.log` calls: logging only.
- Malformed event payloads. A handler given no payload object throws while destructuring it. Room ids and socket ids are modelled as strings only, and the JavaScript falsiness test on `roomId` is modelled only for the empty string. Other JavaScript values (`undefined`, numbers) are not modelled.
- socket.io internals beyond group membership. The library removes a disconnected socket from all its groups, including its own-id group, and delivery to a socket that is no longer connected is dropped. Neither is modelled. `Connect` models only the library's placing of a new socket in its own-id group.
- Object identity of room records. Each room record and its participants `Map` are reachable only through `activeRooms`, so they are modelled as values that the methods replace. A participant record `{ name }` is modelled as the name alone.
- Concurrency. Handlers are atomic on Node's single event loop and are modelled as sequential steps.
- Properties.RelayReachesOnlyTarget: states single-target delivery only when the target's group holds the target alone. `socket.to(target)` addresses a group by name, so a `target` naming a room id reaches that whole room. `SignalingServer.Server.Relay` states that general behaviour.
- socket.io's exclusion rule for `socket.to(name)`. The model leaves out only the calling socket. socket.io 4 leaves out every socket in the group named by the caller's id. The two differ only when another socket has joined a room whose id equals the caller's socket id.
