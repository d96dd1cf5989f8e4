/** A room: an identifier and the set of member clients. Membership changes
    are idempotent set operations; a broadcast reaches every member, and the
    excluding broadcast every member but one. Each room processes its events
    one at a time, so every operation here sees a whole membership set. */
module Rooms {
  import opened Types
  import opened Messages
  import opened SendQueue

  datatype Room = Room(id: RoomID, members: set<Client>)

  /** A fresh room carries the given ID and has no members. */
  function NewRoom(id: RoomID): (r: Room)
    ensures r.id == id && |r.members| == 0
  {
    Room(id, {})
  }

  /** Adds a client; a client already present leaves the room as it was. */
  function Register(r: Room, c: Client): (r': Room)
    ensures r'.id == r.id
    ensures c in r'.members && r.members <= r'.members
    ensures forall d :: d in r'.members && d != c ==> d in r.members
    ensures c in r.members ==> r' == r
    ensures c !in r.members ==> |r'.members| == |r.members| + 1
  {
    r.(members := r.members + {c})
  }

  /** Removes a client; a non-member leaves the room as it was. */
  function Unregister(r: Room, c: Client): (r': Room)
    ensures r'.id == r.id
    ensures c !in r'.members && r'.members <= r.members
    ensures forall d :: d in r.members && d != c ==> d in r'.members
    ensures c !in r.members ==> r' == r
    ensures c in r.members ==> |r'.members| == |r.members| - 1
  {
    r.(members := r.members - {c})
  }

  /** Registering twice is registering once. */
  lemma RegisterIdempotent(r: Room, c: Client)
    ensures Register(Register(r, c), c) == Register(r, c)
  {
  }

  /** Unregistering twice is unregistering once. */
  lemma UnregisterIdempotent(r: Room, c: Client)
    ensures Unregister(Unregister(r, c), c) == Unregister(r, c)
  {
  }

  /** A newcomer that joins and leaves leaves no trace. */
  lemma RegisterThenUnregister(r: Room, c: Client)
    requires c !in r.members
    ensures Unregister(Register(r, c), c) == r
  {
  }

  /** Delivers `m` to every member's queue, the sender included. */
  function Broadcast(queues: map<Client, Queue>, r: Room, m: Message): (q': map<Client, Queue>)
    ensures q'.Keys == queues.Keys
    ensures forall c :: c in queues && c in r.members ==> q'[c] == Enqueue(queues[c], m)
    ensures forall c :: c in queues && c in r.members && !queues[c].IsFull() ==> q'[c].items == queues[c].items + [m]
    ensures forall c :: c in queues && (c !in r.members || queues[c].IsFull()) ==> q'[c] == queues[c]
    ensures AllValid(queues) ==> AllValid(q')
  {
    Deliver(queues, r.members, m)
  }

  /** Delivers `m` to every member's queue except `excluded`'s. */
  function BroadcastExcluding(queues: map<Client, Queue>, r: Room, m: Message, excluded: Client): (q': map<Client, Queue>)
    ensures q'.Keys == queues.Keys
    ensures excluded in queues ==> q'[excluded] == queues[excluded]
    ensures forall c :: c in queues && c in r.members && c != excluded ==> q'[c] == Enqueue(queues[c], m)
    ensures forall c :: c in queues && c in r.members && c != excluded && !queues[c].IsFull() ==> q'[c].items == queues[c].items + [m]
    ensures forall c :: c in queues && (c !in r.members || queues[c].IsFull()) ==> q'[c] == queues[c]
    ensures AllValid(queues) ==> AllValid(q')
  {
    Deliver(queues, r.members - {excluded}, m)
  }

  /** Two members with empty queues of the test capacity: a plain broadcast
      reaches both, the excluding one only the member not excluded. */
  lemma TwoMemberBroadcasts(c1: Client, c2: Client, m: Message)
    requires c1 != c2
    ensures var r := Register(Register(NewRoom("test-room"), c1), c2);
            var qs := map[c1 := NewQueue(SendBufferSize), c2 := NewQueue(SendBufferSize)];
            && Broadcast(qs, r, m)[c1].items == [m]
            && Broadcast(qs, r, m)[c2].items == [m]
            && BroadcastExcluding(qs, r, m, c1)[c1].items == []
            && BroadcastExcluding(qs, r, m, c1)[c2].items == [m]
  {
  }
}
