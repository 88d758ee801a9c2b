/** The connection handler of the signalling server as an object: the room
    table, every socket's data and socket.io's groups are fields that the
    handlers update in place, and each handler returns what it emits. Every
    method is proved to do exactly what the matching function of `Handlers`
    says, so the properties proved there hold of it. */
module SignalingServer {
  import opened JsMap
  import opened Protocol
  import Handlers

  class Server {
    /** `activeRooms` */
    var rooms: map<RoomId, Room>
    /** `socket.data` of every socket that has joined a room */
    var sockData: map<SocketId, SockData>
    /** socket.io's broadcast groups */
    var groups: Groups

    function Snapshot(): Handlers.State
      reads this
    {
      Handlers.State(rooms, sockData, groups)
    }

    ghost predicate Valid()
      reads this
    {
      Handlers.Valid(Snapshot())
    }

    /** The table is empty when the process starts. */
    constructor ()
      ensures Valid() && Snapshot() == Handlers.Init
    {
      rooms := map[];
      sockData := map[];
      groups := map[];
    }

    /** A socket connects and socket.io puts it in the group named by its id. */
    method Connect(sid: SocketId)
      requires Valid()
      modifies this
      ensures Valid()
      ensures Snapshot() == Handlers.Connect(old(Snapshot()), sid).state
    {
      groups := JoinGroup(groups, sid, sid);
    }

    /** `create-room` */
    method CreateRoom(roomId: RoomId, details: Blob) returns (out: seq<Emission>)
      requires Valid()
      modifies this
      ensures Valid()
      ensures Snapshot() == Handlers.CreateRoom(old(Snapshot()), roomId, details).state
      ensures out == Handlers.CreateRoom(old(Snapshot()), roomId, details).out
    {
      if roomId !in rooms {
        rooms := rooms[roomId := Room(None, [], details)];
        out := [Emission(ToCaller, RoomCreated(roomId))];
      } else {
        out := [Emission(ToCaller, RoomExists(roomId))];
      }
    }

    /** `join-as-participant` */
    method JoinAsParticipant(caller: SocketId, roomId: RoomId, name: string) returns (out: seq<Emission>)
      requires Valid()
      modifies this
      ensures Valid()
      ensures Snapshot() == Handlers.JoinAsParticipant(old(Snapshot()), caller, roomId, name).state
      ensures out == Handlers.JoinAsParticipant(old(Snapshot()), caller, roomId, name).out
    {
      // Naming the specification's outcome brings its invariant-keeping contract into the proof.
      ghost var spec := Handlers.JoinAsParticipant(Snapshot(), caller, roomId, name);
      if roomId !in rooms {
        out := [Emission(ToCaller, RoomNotFound)];
        return;
      }
      var room := rooms[roomId];
      room := room.(participants := Set(room.participants, caller, name));
      rooms := rooms[roomId := room];
      groups := JoinGroup(groups, roomId, caller);
      sockData := sockData[caller := SockData(roomId, false, name)];
      match room.doctor {
        case Some(d) =>
          out := [Emission(ToCaller, DoctorPresent(d.name)),
                  Emission(ToGroup(d.socketId), UserJoined(caller, name))];
        case None =>
          out := [Emission(ToCaller, WaitingForDoctor)];
      }
    }

    /** `join-as-doctor` */
    method JoinAsDoctor(caller: SocketId, roomId: RoomId, name: string) returns (out: seq<Emission>)
      requires Valid()
      modifies this
      ensures Valid()
      ensures Snapshot() == Handlers.JoinAsDoctor(old(Snapshot()), caller, roomId, name).state
      ensures out == Handlers.JoinAsDoctor(old(Snapshot()), caller, roomId, name).out
    {
      if roomId !in rooms {
        out := [Emission(ToCaller, RoomNotFound)];
        return;
      }
      var room := rooms[roomId];
      room := room.(doctor := Some(Doctor(caller, name)));
      rooms := rooms[roomId := room];
      groups := JoinGroup(groups, roomId, caller);
      sockData := sockData[caller := SockData(roomId, true, name)];
      var participants := ParticipantList(room.participants);
      out := [Emission(ToGroupExceptCaller(roomId), DoctorJoined(name)),
              Emission(ToCaller, CurrentParticipants(participants))];
    }

    /** `offer`, `answer` and `ice-candidate`: the message reaches every
        member of the group named `target` except the caller, carrying the
        payload unchanged and the caller as sender; nothing else happens. */
    method Relay(kind: Signal, caller: SocketId, target: string, payload: Blob) returns (out: seq<Emission>)
      ensures out == Handlers.Relay(kind, caller, target, payload)
      ensures Deliveries(groups, caller, out)
           == set x | x in Members(groups, target) - {caller} :: (x, Negotiation(kind, payload, caller))
    {
      out := [Emission(ToGroupExceptCaller(target), Negotiation(kind, payload, caller))];
      DeliveriesOne(groups, caller, out[0]);
    }

    /** `leave-room` */
    method LeaveRoom(caller: SocketId) returns (out: seq<Emission>)
      requires Valid()
      modifies this
      ensures Valid()
      ensures Snapshot() == Handlers.Depart(old(Snapshot()), caller).state
      ensures out == Handlers.Depart(old(Snapshot()), caller).out
    {
      out := Depart(caller);
    }

    /** `disconnect` */
    method Disconnect(caller: SocketId) returns (out: seq<Emission>)
      requires Valid()
      modifies this
      ensures Valid()
      ensures Snapshot() == Handlers.Depart(old(Snapshot()), caller).state
      ensures out == Handlers.Depart(old(Snapshot()), caller).out
    {
      out := Depart(caller);
    }

    /** The body the two departure handlers share. */
    method Depart(caller: SocketId) returns (out: seq<Emission>)
      requires Valid()
      modifies this
      ensures Valid()
      ensures Snapshot() == Handlers.Depart(old(Snapshot()), caller).state
      ensures out == Handlers.Depart(old(Snapshot()), caller).out
    {
      out := [];
      if caller !in sockData || sockData[caller].roomId == "" {
        return;
      }
      var data := sockData[caller];
      if data.roomId in rooms {
        var room := rooms[data.roomId];
        if data.isDoctor {
          rooms := rooms[data.roomId := room.(doctor := None)];
          out := [Emission(ToGroupExceptCaller(data.roomId), DoctorLeft)];
        } else {
          rooms := rooms[data.roomId := room.(participants := Delete(room.participants, caller))];
          out := [Emission(ToGroupExceptCaller(data.roomId), UserLeft(caller))];
        }
      }
      groups := LeaveGroup(groups, data.roomId, caller);
    }
  }
}
