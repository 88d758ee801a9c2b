/** The vocabulary of the signalling server: identifiers, the room records in
    `activeRooms`, the per-socket `socket.data`, the events the handlers emit
    and the socket.io addressing that decides who receives them. */
module Protocol {
  import opened JsMap

  type SocketId = string
  type RoomId = string

  /** A client-supplied value the server stores or forwards without looking
      inside it: appointment details, an SDP description, an ICE candidate. */
  type Blob = string

  datatype Doctor = Doctor(socketId: SocketId, name: string)

  /** One entry of `activeRooms`. `participants` is the room's JavaScript
      `Map` from a socket id to the participant's name, in insertion order. */
  datatype Room = Room(
    doctor: Option<Doctor>,
    participants: seq<(SocketId, string)>,
    appointmentDetails: Blob)

  /** What `socket.data` holds once the socket has joined a room. A socket
      that never joined has the empty object, modelled by having no entry. */
  datatype SockData = SockData(roomId: RoomId, isDoctor: bool, name: string)

  /** One element of the `current-participants` list sent to a doctor. */
  datatype ParticipantInfo = ParticipantInfo(id: SocketId, name: string)

  /** The three WebRTC negotiation messages the server relays. */
  datatype Signal = Offer | Answer | IceCandidate

  datatype Event =
    | RoomCreated(roomId: RoomId)
    | RoomExists(roomId: RoomId)
    | RoomNotFound
    | DoctorPresent(doctorName: string)
    | UserJoined(id: SocketId, name: string)
    | WaitingForDoctor
    | DoctorJoined(name: string)
    | CurrentParticipants(participants: seq<ParticipantInfo>)
    | Negotiation(kind: Signal, payload: Blob, sender: SocketId)
    | DoctorLeft
    | UserLeft(id: SocketId)

  /** How a handler addresses an event: `socket.emit` goes to the calling
      socket, `io.to(name)` to every member of the group `name`, and
      `socket.to(name)` to every member of the group except the caller. */
  datatype Target = ToCaller | ToGroup(name: string) | ToGroupExceptCaller(name: string)

  datatype Emission = Emission(target: Target, event: Event)

  /** socket.io's broadcast groups ("rooms" in its own terms), by name. */
  type Groups = map<string, set<SocketId>>

  function Members(groups: Groups, name: string): set<SocketId> {
    if name in groups then groups[name] else {}
  }

  /** `socket.join(name)` */
  function JoinGroup(groups: Groups, name: string, sid: SocketId): (g: Groups)
    ensures Members(g, name) == Members(groups, name) + {sid}
    ensures forall n :: n != name ==> Members(g, n) == Members(groups, n)
  {
    groups[name := Members(groups, name) + {sid}]
  }

  /** `socket.leave(name)` */
  function LeaveGroup(groups: Groups, name: string, sid: SocketId): (g: Groups)
    ensures Members(g, name) == Members(groups, name) - {sid}
    ensures forall n :: n != name ==> Members(g, n) == Members(groups, n)
  {
    if name in groups then groups[name := groups[name] - {sid}] else groups
  }

  /** The sockets an emission with target `t`, made by `caller`, reaches. */
  function Recipients(groups: Groups, caller: SocketId, t: Target): set<SocketId> {
    match t
    case ToCaller => {caller}
    case ToGroup(n) => Members(groups, n)
    case ToGroupExceptCaller(n) => Members(groups, n) - {caller}
  }

  /** Every (recipient, event) pair that a handler's emissions deliver. */
  function Deliveries(groups: Groups, caller: SocketId, out: seq<Emission>): set<(SocketId, Event)> {
    if out == [] then {}
    else
      (set x | x in Recipients(groups, caller, out[0].target) :: (x, out[0].event))
      + Deliveries(groups, caller, out[1..])
  }

  /** One emission delivers its event to each of its recipients. */
  lemma DeliveriesOne(groups: Groups, caller: SocketId, e: Emission)
    ensures Deliveries(groups, caller, [e]) == set x | x in Recipients(groups, caller, e.target) :: (x, e.event)
  {
    assert [e][1..] == [];
  }

  /** Emissions made one after another deliver what each of them delivers. */
  lemma {:induction false} DeliveriesAppend(groups: Groups, caller: SocketId, a: seq<Emission>, b: seq<Emission>)
    ensures Deliveries(groups, caller, a + b) == Deliveries(groups, caller, a) + Deliveries(groups, caller, b)
  {
    if a == [] {
      assert a + b == b;
    } else {
      assert (a + b)[1..] == a[1..] + b;
      DeliveriesAppend(groups, caller, a[1..], b);
    }
  }

  /** The `current-participants` payload: the participants map's entries, in
      iteration order, each as an `{id, name}` record. */
  function ParticipantList(ps: seq<(SocketId, string)>): seq<ParticipantInfo> {
    if ps == [] then [] else [ParticipantInfo(ps[0].0, ps[0].1)] + ParticipantList(ps[1..])
  }

  /** The list has one element per entry, in the map's order. */
  lemma {:induction false} ParticipantListInOrder(ps: seq<(SocketId, string)>)
    ensures |ParticipantList(ps)| == |ps|
    ensures forall i :: 0 <= i < |ps| ==> ParticipantList(ps)[i] == ParticipantInfo(ps[i].0, ps[i].1)
  {
    if ps != [] {
      ParticipantListInOrder(ps[1..]);
    }
  }

  /** The list names exactly the registered participants, each with the name
      the map holds for it. */
  lemma ParticipantListMatchesMap(ps: seq<(SocketId, string)>)
    requires UniqueKeys(ps)
    ensures (set p | p in ParticipantList(ps) :: p.id) == Keys(ps)
    ensures forall p :: p in ParticipantList(ps) ==> Get(ps, p.id) == Some(p.name)
  {
    var list := ParticipantList(ps);
    ParticipantListInOrder(ps);
    forall p | p in list ensures p.id in Keys(ps) && Get(ps, p.id) == Some(p.name) {
      var i :| 0 <= i < |list| && list[i] == p;
      GetAt(ps, i);
    }
    forall id | id in Keys(ps) ensures id in (set p | p in list :: p.id) {
      var i :| 0 <= i < |ps| && ps[i].0 == id;
      assert list[i] in list;
    }
  }
}
