/** The socket event handlers of the signalling server, each as a function from
    the server's state before the event to its state after the event and the
    emissions the handler makes. A handler runs to completion on the event
    loop, so each one is a single atomic step. */
module Handlers {
  import opened JsMap
  import opened Protocol

  /** `activeRooms`, every socket's `socket.data`, and socket.io's groups. */
  datatype State = State(
    rooms: map<RoomId, Room>,
    sockData: map<SocketId, SockData>,
    groups: Groups)

  datatype Outcome = Outcome(state: State, out: seq<Emission>)

  /** The state when the process starts: no room, no socket data, no group. */
  const Init: State := State(map[], map[], map[])

  /** What every reachable state satisfies: each participants map is a real
      map (no repeated key), and a socket's recorded room exists. */
  predicate Valid(s: State) {
    && (forall id :: id in s.rooms ==> UniqueKeys(s.rooms[id].participants))
    && (forall sid :: sid in s.sockData ==> s.sockData[sid].roomId in s.rooms)
  }

  /** `t` still has every room of `s`, with the same appointment details. */
  predicate Keeps(s: State, t: State) {
    && s.rooms.Keys <= t.rooms.Keys
    && forall id :: id in s.rooms ==> t.rooms[id].appointmentDetails == s.rooms[id].appointmentDetails
  }

  /** A new connection. The handler itself only logs; socket.io puts the new
      socket into a group named by its own id, which is how `io.to(id)` and
      `socket.to(id)` reach a single socket. */
  function Connect(s: State, sid: SocketId): (r: Outcome)
    ensures r.state.rooms == s.rooms && r.state.sockData == s.sockData
    ensures Members(r.state.groups, sid) == Members(s.groups, sid) + {sid}
    ensures forall n :: n != sid ==> Members(r.state.groups, n) == Members(s.groups, n)
    ensures r.out == []
    ensures Valid(s) ==> Valid(r.state)
    ensures Keeps(s, r.state)
  {
    Outcome(s.(groups := JoinGroup(s.groups, sid, sid)), [])
  }

  /** `create-room`: a new id gets an empty room; an existing room is never
      replaced. The creating socket does not join the room. */
  function CreateRoom(s: State, roomId: RoomId, details: Blob): (r: Outcome)
    ensures r.state.sockData == s.sockData && r.state.groups == s.groups
    ensures r.state.rooms.Keys == s.rooms.Keys + {roomId}
    ensures forall id :: id in s.rooms ==> r.state.rooms[id] == s.rooms[id]
    ensures roomId !in s.rooms ==>
      && r.state.rooms[roomId] == Room(None, [], details)
      && r.out == [Emission(ToCaller, RoomCreated(roomId))]
    ensures roomId in s.rooms ==> r.out == [Emission(ToCaller, RoomExists(roomId))]
    ensures Valid(s) ==> Valid(r.state)
    ensures Keeps(s, r.state)
  {
    if roomId !in s.rooms then
      Outcome(s.(rooms := s.rooms[roomId := Room(None, [], details)]),
              [Emission(ToCaller, RoomCreated(roomId))])
    else
      Outcome(s, [Emission(ToCaller, RoomExists(roomId))])
  }

  /** `join-as-participant`: the caller is registered under its socket id with
      its name, joins the room's group and records the room in its socket
      data; it is told whether a doctor is there, and that doctor's socket is
      told about it. */
  function JoinAsParticipant(s: State, caller: SocketId, roomId: RoomId, name: string): (r: Outcome)
    ensures roomId !in s.rooms ==> r == Outcome(s, [Emission(ToCaller, RoomNotFound)])
    ensures r.state.rooms.Keys == s.rooms.Keys
    ensures forall id :: id in s.rooms && id != roomId ==> r.state.rooms[id] == s.rooms[id]
    ensures roomId in s.rooms ==>
      var before, after := s.rooms[roomId], r.state.rooms[roomId];
      && after.doctor == before.doctor
      && after.appointmentDetails == before.appointmentDetails
      && after.participants == Set(before.participants, caller, name)
      && Keys(after.participants) == Keys(before.participants) + {caller}
      && Get(after.participants, caller) == Some(name)
      && (forall id :: id != caller ==> Get(after.participants, id) == Get(before.participants, id))
      && r.state.sockData == s.sockData[caller := SockData(roomId, false, name)]
      && r.state.groups == JoinGroup(s.groups, roomId, caller)
      && r.out == match before.doctor
                  case Some(d) => [Emission(ToCaller, DoctorPresent(d.name)),
                                   Emission(ToGroup(d.socketId), UserJoined(caller, name))]
                  case None => [Emission(ToCaller, WaitingForDoctor)]
    ensures Valid(s) ==> Valid(r.state)
    ensures Keeps(s, r.state)
  {
    if roomId !in s.rooms then
      Outcome(s, [Emission(ToCaller, RoomNotFound)])
    else
      var room := s.rooms[roomId];
      var participants := Set(room.participants, caller, name);
      assert UniqueKeys(room.participants) ==> UniqueKeys(participants) by {
        if UniqueKeys(room.participants) {
          SetKeepsUnique(room.participants, caller, name);
        }
      }
      var state := State(
        s.rooms[roomId := room.(participants := participants)],
        s.sockData[caller := SockData(roomId, false, name)],
        JoinGroup(s.groups, roomId, caller));
      var out := match room.doctor
        case Some(d) => [Emission(ToCaller, DoctorPresent(d.name)),
                         Emission(ToGroup(d.socketId), UserJoined(caller, name))]
        case None => [Emission(ToCaller, WaitingForDoctor)];
      Outcome(state, out)
  }

  /** `join-as-doctor`: the caller becomes the room's doctor whoever held the
      role before, joins the room's group, records the room in its socket data,
      announces itself to the rest of the group and receives the participant
      list. */
  function JoinAsDoctor(s: State, caller: SocketId, roomId: RoomId, name: string): (r: Outcome)
    ensures roomId !in s.rooms ==> r == Outcome(s, [Emission(ToCaller, RoomNotFound)])
    ensures r.state.rooms.Keys == s.rooms.Keys
    ensures forall id :: id in s.rooms && id != roomId ==> r.state.rooms[id] == s.rooms[id]
    ensures roomId in s.rooms ==>
      var before, after := s.rooms[roomId], r.state.rooms[roomId];
      && after.doctor == Some(Doctor(caller, name))
      && after.participants == before.participants
      && after.appointmentDetails == before.appointmentDetails
      && r.state.sockData == s.sockData[caller := SockData(roomId, true, name)]
      && r.state.groups == JoinGroup(s.groups, roomId, caller)
      && r.out == [Emission(ToGroupExceptCaller(roomId), DoctorJoined(name)),
                   Emission(ToCaller, CurrentParticipants(ParticipantList(before.participants)))]
    ensures Valid(s) ==> Valid(r.state)
    ensures Keeps(s, r.state)
  {
    if roomId !in s.rooms then
      Outcome(s, [Emission(ToCaller, RoomNotFound)])
    else
      var room := s.rooms[roomId];
      var state := State(
        s.rooms[roomId := room.(doctor := Some(Doctor(caller, name)))],
        s.sockData[caller := SockData(roomId, true, name)],
        JoinGroup(s.groups, roomId, caller));
      Outcome(state, [Emission(ToGroupExceptCaller(roomId), DoctorJoined(name)),
                      Emission(ToCaller, CurrentParticipants(ParticipantList(room.participants)))])
  }

  /** `offer`, `answer` and `ice-candidate`: no state changes; the payload
      goes, untouched and tagged with the caller's id, to the group named by
      `target` minus the caller. */
  function Relay(kind: Signal, caller: SocketId, target: string, payload: Blob): seq<Emission> {
    [Emission(ToGroupExceptCaller(target), Negotiation(kind, payload, caller))]
  }

  /** What `leave-room` and `disconnect` both do. A socket whose data holds no
      room id (or the empty id, which JavaScript treats as false) changes
      nothing. Otherwise a doctor clears the room's doctor, whoever it is now,
      and a participant removes its own entry; the rest of the group is told,
      and the socket leaves the group. The socket data is never cleared. */
  function Depart(s: State, caller: SocketId): (r: Outcome)
    ensures r.state.sockData == s.sockData
    ensures r.state.rooms.Keys == s.rooms.Keys
    ensures caller !in s.sockData || s.sockData[caller].roomId == "" ==> r == Outcome(s, [])
    ensures caller in s.sockData && s.sockData[caller].roomId != "" ==>
      var d := s.sockData[caller];
      && r.state.groups == LeaveGroup(s.groups, d.roomId, caller)
      && (forall id :: id in s.rooms && id != d.roomId ==> r.state.rooms[id] == s.rooms[id])
      && (d.roomId !in s.rooms ==> r.state.rooms == s.rooms && r.out == [])
      && (d.roomId in s.rooms && d.isDoctor ==>
            && r.state.rooms[d.roomId] == s.rooms[d.roomId].(doctor := None)
            && r.out == [Emission(ToGroupExceptCaller(d.roomId), DoctorLeft)])
      && (d.roomId in s.rooms && !d.isDoctor ==>
            var before, after := s.rooms[d.roomId], r.state.rooms[d.roomId];
            && after.doctor == before.doctor
            && after.appointmentDetails == before.appointmentDetails
            && after.participants == Delete(before.participants, caller)
            && Keys(after.participants) == Keys(before.participants) - {caller}
            && (forall id :: id != caller ==> Get(after.participants, id) == Get(before.participants, id))
            && r.out == [Emission(ToGroupExceptCaller(d.roomId), UserLeft(caller))])
    ensures Valid(s) ==> Valid(r.state)
    ensures Keeps(s, r.state)
  {
    if caller !in s.sockData || s.sockData[caller].roomId == "" then
      Outcome(s, [])
    else
      var d := s.sockData[caller];
      var groups := LeaveGroup(s.groups, d.roomId, caller);
      if d.roomId !in s.rooms then
        Outcome(s.(groups := groups), [])
      else
        var room := s.rooms[d.roomId];
        if d.isDoctor then
          Outcome(State(s.rooms[d.roomId := room.(doctor := None)], s.sockData, groups),
                  [Emission(ToGroupExceptCaller(d.roomId), DoctorLeft)])
        else
          var participants := Delete(room.participants, caller);
          Outcome(State(s.rooms[d.roomId := room.(participants := participants)], s.sockData, groups),
                  [Emission(ToGroupExceptCaller(d.roomId), UserLeft(caller))])
  }

  /** An event a socket can deliver to the server. */
  datatype Request =
    | Connection
    | CreateRoomRequest(roomId: RoomId, appointmentDetails: Blob)
    | JoinAsParticipantRequest(roomId: RoomId, name: string)
    | JoinAsDoctorRequest(roomId: RoomId, name: string)
    | SignalRequest(kind: Signal, target: string, payload: Blob)
    | LeaveRoomRequest
    | DisconnectRequest

  /** The dispatch from an event to its handler. */
  function Step(s: State, caller: SocketId, req: Request): (r: Outcome)
    ensures Valid(s) ==> Valid(r.state)
    ensures Keeps(s, r.state)
    ensures req.SignalRequest? ==> r.state == s
  {
    match req
    case Connection => Connect(s, caller)
    case CreateRoomRequest(roomId, details) => CreateRoom(s, roomId, details)
    case JoinAsParticipantRequest(roomId, name) => JoinAsParticipant(s, caller, roomId, name)
    case JoinAsDoctorRequest(roomId, name) => JoinAsDoctor(s, caller, roomId, name)
    case SignalRequest(kind, target, payload) => Outcome(s, Relay(kind, caller, target, payload))
    case LeaveRoomRequest => Depart(s, caller)
    case DisconnectRequest => Depart(s, caller)
  }

  /** The state after a sequence of (socket, event) pairs, handled in order. */
  function Run(s: State, events: seq<(SocketId, Request)>): State
    decreases |events|
  {
    if events == [] then s else Run(Step(s, events[0].0, events[0].1).state, events[1..])
  }

  /** No sequence of events removes a room or changes its appointment details,
      and none breaks the state invariant. */
  lemma {:induction false} RunKeeps(s: State, events: seq<(SocketId, Request)>)
    ensures Keeps(s, Run(s, events))
    ensures Valid(s) ==> Valid(Run(s, events))
    decreases |events|
  {
    if events != [] {
      var t := Step(s, events[0].0, events[0].1).state;
      RunKeeps(t, events[1..]);
    }
  }

  /** Every state the server can reach from its start satisfies the invariant. */
  lemma ReachableValid(events: seq<(SocketId, Request)>)
    ensures Valid(Run(Init, events))
  {
    RunKeeps(Init, events);
  }
}
