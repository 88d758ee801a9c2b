/** Properties that relate several handler calls, and who actually receives
    what the handlers emit. */
module Properties {
  import opened JsMap
  import opened Protocol
  import opened Handlers

  /** A second `leave-room` or `disconnect` from the same socket changes no
      further state, because the socket data is not cleared, but it repeats the
      notification to the room. */
  lemma DepartTwice(s: State, caller: SocketId)
    ensures Depart(Depart(s, caller).state, caller).state == Depart(s, caller).state
    ensures Depart(Depart(s, caller).state, caller).out == Depart(s, caller).out
  {
    var s1 := Depart(s, caller).state;
    if caller in s.sockData && s.sockData[caller].roomId != "" {
      var d := s.sockData[caller];
      var g1 := LeaveGroup(s.groups, d.roomId, caller);
      assert s1.groups == g1;
      assert LeaveGroup(g1, d.roomId, caller) == g1 by {
        if d.roomId in s.groups {
          assert g1[d.roomId] - {caller} == g1[d.roomId];
        }
      }
      if d.roomId in s.rooms {
        var room1 := s1.rooms[d.roomId];
        if d.isDoctor {
          assert room1.(doctor := None) == room1;
        } else {
          assert Delete(room1.participants, caller) == room1.participants;
          assert room1.(participants := room1.participants) == room1;
        }
        assert s1.rooms[d.roomId := room1] == s1.rooms;
      }
    }
  }

  /** A participant who joins a room it was not listed in and then leaves
      restores every room to what it was. */
  lemma ParticipantJoinThenLeave(s: State, caller: SocketId, roomId: RoomId, name: string)
    requires roomId in s.rooms && roomId != ""
    requires caller !in Keys(s.rooms[roomId].participants)
    ensures Depart(JoinAsParticipant(s, caller, roomId, name).state, caller).state.rooms == s.rooms
  {
    var room := s.rooms[roomId];
    var joined := room.(participants := Set(room.participants, caller, name));
    var s1 := JoinAsParticipant(s, caller, roomId, name).state;
    JoinedRooms(s, caller, roomId, name);
    LeftRooms(s1, caller);
    DeleteUndoesSet(room.participants, caller, name);
    assert joined.(participants := Delete(joined.participants, caller)) == room;
    assert s.rooms[roomId := joined][roomId := room] == s.rooms;
  }

  /** The room table and socket data right after a successful
      `join-as-participant`. */
  lemma JoinedRooms(s: State, caller: SocketId, roomId: RoomId, name: string)
    requires roomId in s.rooms
    ensures
      var s1 := JoinAsParticipant(s, caller, roomId, name).state;
      var room := s.rooms[roomId];
      && s1.rooms == s.rooms[roomId := room.(participants := Set(room.participants, caller, name))]
      && s1.sockData[caller] == SockData(roomId, false, name)
  {
  }

  /** The room table right after a participant with a recorded room departs. */
  lemma LeftRooms(s: State, caller: SocketId)
    requires caller in s.sockData
    requires s.sockData[caller].roomId != "" && s.sockData[caller].roomId in s.rooms
    requires !s.sockData[caller].isDoctor
    ensures
      var roomId := s.sockData[caller].roomId;
      var room := s.rooms[roomId];
      Depart(s, caller).state.rooms == s.rooms[roomId := room.(participants := Delete(room.participants, caller))]
  {
  }

  /** A doctor who joins and then leaves leaves the room with no doctor, even
      when another doctor was registered before it joined. */
  lemma DoctorJoinThenLeave(s: State, caller: SocketId, roomId: RoomId, name: string)
    requires roomId in s.rooms && roomId != ""
    ensures Depart(JoinAsDoctor(s, caller, roomId, name).state, caller).state.rooms
         == s.rooms[roomId := s.rooms[roomId].(doctor := None)]
  {
  }

  /** The last doctor to join wins, and the leaving of an earlier doctor
      clears the role although the later doctor is still there and still
      records itself as the room's doctor. */
  lemma StaleDoctorClearsRole(s: State, a: SocketId, b: SocketId, roomId: RoomId, nameA: string, nameB: string)
    requires roomId in s.rooms && roomId != "" && a != b
    ensures
      var s2 := JoinAsDoctor(JoinAsDoctor(s, a, roomId, nameA).state, b, roomId, nameB).state;
      var r := Depart(s2, a);
      && s2.rooms[roomId].doctor == Some(Doctor(b, nameB))
      && r.state.rooms[roomId].doctor == None
      && r.state.sockData[b] == SockData(roomId, true, nameB)
      && r.out == [Emission(ToGroupExceptCaller(roomId), DoctorLeft)]
  {
  }

  /** A participant that joins a second room stays listed in the first after
      it leaves or disconnects: the socket data only remembers the last room. */
  lemma SecondJoinLeavesStaleEntry(s: State, caller: SocketId, first: RoomId, second: RoomId, n1: string, n2: string)
    requires first in s.rooms && second in s.rooms && first != second && second != ""
    ensures
      var s2 := JoinAsParticipant(JoinAsParticipant(s, caller, first, n1).state, caller, second, n2).state;
      var s3 := Depart(s2, caller).state;
      && Get(s3.rooms[first].participants, caller) == Some(n1)
      && caller !in Keys(s3.rooms[second].participants)
  {
  }

  /** A socket that joined the room whose id is the empty string can never
      leave it: both departure handlers stop at the falsy room id. */
  lemma EmptyRoomIdCannotBeLeft(s: State, caller: SocketId, name: string)
    requires "" in s.rooms
    ensures
      var s1 := JoinAsParticipant(s, caller, "", name).state;
      && caller in Keys(s1.rooms[""].participants)
      && Depart(s1, caller) == Outcome(s1, [])
  {
  }

  /** A joining participant gets `doctor-present` and the doctor's socket gets
      `user-joined`, and no one else hears anything, when the doctor's own
      group holds only the doctor's socket. Without a doctor the participant
      alone hears `waiting-for-doctor`. */
  lemma ParticipantJoinDeliveries(s: State, caller: SocketId, roomId: RoomId, name: string)
    requires roomId in s.rooms
    requires s.rooms[roomId].doctor.Some? ==>
      var d := s.rooms[roomId].doctor.value;
      d.socketId != roomId && Members(s.groups, d.socketId) == {d.socketId}
    ensures
      var r := JoinAsParticipant(s, caller, roomId, name);
      Deliveries(r.state.groups, caller, r.out) ==
        match s.rooms[roomId].doctor
        case Some(d) => {(caller, DoctorPresent(d.name)), (d.socketId, UserJoined(caller, name))}
        case None => {(caller, WaitingForDoctor)}
  {
    var r := JoinAsParticipant(s, caller, roomId, name);
    var g := r.state.groups;
    assert g == JoinGroup(s.groups, roomId, caller);
    match s.rooms[roomId].doctor
    case Some(d) =>
      assert Members(g, d.socketId) == {d.socketId};
      DeliveriesPair(g, caller, r.out[0], r.out[1]);
    case None =>
      DeliveriesOne(g, caller, r.out[0]);
  }

  /** Two emissions deliver what each of them delivers. */
  lemma DeliveriesPair(groups: Groups, caller: SocketId, e0: Emission, e1: Emission)
    ensures Deliveries(groups, caller, [e0, e1])
         == (set x | x in Recipients(groups, caller, e0.target) :: (x, e0.event))
          + (set x | x in Recipients(groups, caller, e1.target) :: (x, e1.event))
  {
    DeliveriesOne(groups, caller, e0);
    DeliveriesOne(groups, caller, e1);
    DeliveriesAppend(groups, caller, [e0], [e1]);
    assert [e0, e1] == [e0] + [e1];
  }

  /** A joining doctor's `doctor-joined` reaches every other member of the
      room's group, and the doctor alone receives the participant list. */
  lemma DoctorJoinDeliveries(s: State, caller: SocketId, roomId: RoomId, name: string)
    requires roomId in s.rooms
    ensures
      var r := JoinAsDoctor(s, caller, roomId, name);
      Deliveries(r.state.groups, caller, r.out) ==
        (set x | x in Members(s.groups, roomId) - {caller} :: (x, DoctorJoined(name)))
        + {(caller, CurrentParticipants(ParticipantList(s.rooms[roomId].participants)))}
  {
    var r := JoinAsDoctor(s, caller, roomId, name);
    var g := r.state.groups;
    assert Members(g, roomId) - {caller} == Members(s.groups, roomId) - {caller};
    DeliveriesPair(g, caller, r.out[0], r.out[1]);
  }

  /** In every state the server can reach, a joining doctor's
      `current-participants` list names exactly the participants registered in
      the room, each with its registered name and none twice over. */
  lemma DoctorSeesRegisteredParticipants(events: seq<(SocketId, Request)>, caller: SocketId, roomId: RoomId, name: string)
    requires roomId in Run(Init, events).rooms
    ensures
      var s := Run(Init, events);
      var ps := s.rooms[roomId].participants;
      var r := JoinAsDoctor(s, caller, roomId, name);
      && r.out[1] == Emission(ToCaller, CurrentParticipants(ParticipantList(ps)))
      && (set p | p in ParticipantList(ps) :: p.id) == Keys(ps)
      && (forall p :: p in ParticipantList(ps) ==> Get(ps, p.id) == Some(p.name))
      && (forall i, j :: 0 <= i < j < |ParticipantList(ps)| ==> ParticipantList(ps)[i].id != ParticipantList(ps)[j].id)
  {
    var s := Run(Init, events);
    var ps := s.rooms[roomId].participants;
    ReachableValid(events);
    ParticipantListMatchesMap(ps);
    ParticipantListInOrder(ps);
  }

  /** A negotiation message reaches exactly the target socket, with its
      payload unchanged and the caller as sender, when the target's group is
      the target alone; a socket that names itself reaches no one. */
  lemma RelayReachesOnlyTarget(groups: Groups, kind: Signal, caller: SocketId, target: SocketId, payload: Blob)
    requires Members(groups, target) == {target}
    ensures Deliveries(groups, caller, Relay(kind, caller, target, payload))
         == if target == caller then {} else {(target, Negotiation(kind, payload, caller))}
  {
    DeliveriesOne(groups, caller, Relay(kind, caller, target, payload)[0]);
  }
}
