/** The hub: the index from room ID to room. Its single event loop is read
    as applying one event at a time, so each handler is a state transition. */
module Hubs {
  import opened Types
  import Rooms

  datatype Hub = Hub(rooms: map<RoomID, Rooms.Room>)

  /** Every indexed room carries its own key as ID, and every member of it
      asked for that room. */
  predicate Valid(h: Hub) {
    forall k :: k in h.rooms ==> h.rooms[k].id == k && forall c :: c in h.rooms[k].members ==> c.roomID == k
  }

  /** No indexed room is empty: the state once every pending emptiness
      signal has been processed. */
  predicate Settled(h: Hub) {
    forall k :: k in h.rooms ==> |h.rooms[k].members| > 0
  }

  /** Number of members of an indexed room, zero for an unknown ID. */
  function Count(h: Hub, id: RoomID): nat {
    if id in h.rooms then |h.rooms[id].members| else 0
  }

  function NewHub(): (h: Hub)
    ensures |h.rooms| == 0
    ensures Valid(h) && Settled(h)
  {
    Hub(map[])
  }

  /** Register event: find the client's room by its RoomID, creating and
      indexing it on first use, then add the client to it. */
  function Register(h: Hub, c: Client): (h': Hub)
    ensures h'.rooms.Keys == h.rooms.Keys + {c.roomID}
    ensures c.roomID !in h.rooms ==> h'.rooms[c.roomID] == Rooms.Room(c.roomID, {c})
    ensures c.roomID in h.rooms ==> h'.rooms[c.roomID] == h.rooms[c.roomID].(members := h.rooms[c.roomID].members + {c})
    ensures forall k :: k in h.rooms && k != c.roomID ==> h'.rooms[k] == h.rooms[k]
  {
    Hub(h.rooms[c.roomID := Rooms.Register(Found(h, c.roomID), c)])
  }

  /** The indexed room, or a new one when the ID is not indexed. */
  function Found(h: Hub, id: RoomID): Rooms.Room {
    if id in h.rooms then h.rooms[id] else Rooms.NewRoom(id)
  }

  /** Unregister event: forwarded to the client's room when that room is
      indexed, otherwise nothing happens. The room is never dropped here. */
  function Unregister(h: Hub, c: Client): (h': Hub)
    ensures h'.rooms.Keys == h.rooms.Keys
    ensures c.roomID in h.rooms ==> h'.rooms[c.roomID] == h.rooms[c.roomID].(members := h.rooms[c.roomID].members - {c})
    ensures c.roomID !in h.rooms ==> h' == h
    ensures forall k :: k in h.rooms && k != c.roomID ==> h'.rooms[k] == h.rooms[k]
  {
    if c.roomID in h.rooms then Hub(h.rooms[c.roomID := Rooms.Unregister(h.rooms[c.roomID], c)]) else h
  }

  /** Emptiness signal: the entry is deleted only if, when the signal is
      processed, the room is indexed and has no member. */
  function EmptyRoom(h: Hub, id: RoomID): (h': Hub)
    ensures id in h.rooms && |h.rooms[id].members| == 0 ==> h'.rooms.Keys == h.rooms.Keys - {id}
    ensures id !in h.rooms || |h.rooms[id].members| > 0 ==> h' == h
    ensures forall k :: k in h'.rooms ==> k in h.rooms && h'.rooms[k] == h.rooms[k]
  {
    if id in h.rooms && |h.rooms[id].members| == 0 then Hub(h.rooms - {id}) else h
  }

  /** Read-only lookup. */
  function GetRoom(h: Hub, id: RoomID): (r: Option<Rooms.Room>)
    ensures r.Some? <==> id in h.rooms
    ensures r.Some? ==> r.value == h.rooms[id]
  {
    if id in h.rooms then Some(h.rooms[id]) else None
  }

  /** Every event keeps the index consistent; registration also keeps it
      free of empty rooms. */
  lemma RegisterKeepsValid(h: Hub, c: Client)
    requires Valid(h)
    ensures Valid(Register(h, c))
    ensures Settled(h) ==> Settled(Register(h, c))
  {
    var h' := Register(h, c);
    forall k | k in h'.rooms
      ensures h'.rooms[k].id == k && forall d :: d in h'.rooms[k].members ==> d.roomID == k
      ensures Settled(h) ==> |h'.rooms[k].members| > 0
    {
      if k == c.roomID {
        assert c in h'.rooms[k].members;
      }
    }
  }

  lemma UnregisterKeepsValid(h: Hub, c: Client)
    requires Valid(h)
    ensures Valid(Unregister(h, c))
  {
    var h' := Unregister(h, c);
    forall k | k in h'.rooms
      ensures h'.rooms[k].id == k && forall d :: d in h'.rooms[k].members ==> d.roomID == k
    {
    }
  }

  lemma EmptyRoomKeepsValid(h: Hub, id: RoomID)
    requires Valid(h)
    ensures Valid(EmptyRoom(h, id))
  {
  }

  /** A consistent index places each client in at most one room. */
  lemma AtMostOneRoom(h: Hub, c: Client, k1: RoomID, k2: RoomID)
    requires Valid(h)
    requires k1 in h.rooms && c in h.rooms[k1].members
    requires k2 in h.rooms && c in h.rooms[k2].members
    ensures k1 == k2 == c.roomID
  {
  }

  /** A room freshly created by a registration is found, under its own ID. */
  lemma RegisterThenGetRoom(h: Hub, c: Client)
    ensures GetRoom(Register(h, c), c.roomID).Some?
    ensures Valid(h) ==> GetRoom(Register(h, c), c.roomID).value.id == c.roomID
    ensures c in GetRoom(Register(h, c), c.roomID).value.members
  {
  }

  /** A duplicate registration changes nothing. */
  lemma RegisterIdempotent(h: Hub, c: Client)
    ensures Register(Register(h, c), c) == Register(h, c)
  {
    var h1 := Register(h, c);
    assert h1.rooms[c.roomID].members + {c} == h1.rooms[c.roomID].members;
    assert h1.rooms[c.roomID := h1.rooms[c.roomID]] == h1.rooms;
  }

  /** Unregistering twice is unregistering once. */
  lemma UnregisterIdempotent(h: Hub, c: Client)
    ensures Unregister(Unregister(h, c), c) == Unregister(h, c)
  {
    if c.roomID in h.rooms {
      var h1 := Unregister(h, c);
      assert h1.rooms[c.roomID].members - {c} == h1.rooms[c.roomID].members;
      assert h1.rooms[c.roomID := h1.rooms[c.roomID]] == h1.rooms;
    }
  }

  /** The order in which two registrations are processed does not matter. */
  lemma RegisterCommutes(h: Hub, a: Client, b: Client)
    ensures Register(Register(h, a), b) == Register(Register(h, b), a)
  {
    if a.roomID == b.roomID {
      CommuteSameRoom(h, a, b);
    } else {
      CommuteOtherRooms(h, a, b);
    }
  }

  lemma CommuteSameRoom(h: Hub, a: Client, b: Client)
    requires a.roomID == b.roomID
    ensures Register(Register(h, a), b) == Register(Register(h, b), a)
  {
    var ra := Found(h, a.roomID);
    var both := Rooms.Room(ra.id, ra.members + {a} + {b});
    RegisterTwice(h, a, b, both);
    assert ra.members + {b} + {a} == ra.members + {a} + {b};
    RegisterTwice(h, b, a, both);
  }

  /** Two registrations into the same room, spelled out. */
  lemma RegisterTwice(h: Hub, a: Client, b: Client, both: Rooms.Room)
    requires a.roomID == b.roomID
    requires both == Rooms.Room(Found(h, a.roomID).id, Found(h, a.roomID).members + {a} + {b})
    ensures Register(Register(h, a), b).rooms == h.rooms[a.roomID := both]
  {
    var h1 := Register(h, a);
    assert Found(h1, a.roomID) == Rooms.Room(Found(h, a.roomID).id, Found(h, a.roomID).members + {a});
    assert Register(h1, b).rooms == h1.rooms[a.roomID := both];
  }

  lemma CommuteOtherRooms(h: Hub, a: Client, b: Client)
    requires a.roomID != b.roomID
    ensures Register(Register(h, a), b) == Register(Register(h, b), a)
  {
    var ra := Found(h, a.roomID);
    var rb := Found(h, b.roomID);
    assert Found(Register(h, a), b.roomID) == rb;
    assert Register(Register(h, a), b).rooms == h.rooms[a.roomID := Rooms.Register(ra, a)][b.roomID := Rooms.Register(rb, b)];
    assert Found(Register(h, b), a.roomID) == ra;
    assert Register(Register(h, b), a).rooms == h.rooms[b.roomID := Rooms.Register(rb, b)][a.roomID := Rooms.Register(ra, a)];
  }

  /** A client's departure followed by the room's emptiness signal. */
  function Leave(h: Hub, c: Client): (h': Hub)
    ensures h'.rooms.Keys <= h.rooms.Keys
    ensures forall k :: k in h.rooms && k != c.roomID ==> k in h'.rooms && h'.rooms[k] == h.rooms[k]
    ensures c.roomID in h'.rooms ==> h'.rooms[c.roomID].members == h.rooms[c.roomID].members - {c} != {}
    ensures c.roomID in h.rooms && h.rooms[c.roomID].members <= {c} ==> c.roomID !in h'.rooms
  {
    EmptyRoom(Unregister(h, c), c.roomID)
  }

  /** Leaving keeps every indexed room non-empty and drops the room of the
      last member; a client that leaves is a member of no room. */
  lemma LeaveKeepsSettled(h: Hub, c: Client)
    requires Valid(h) && Settled(h)
    ensures Valid(Leave(h, c)) && Settled(Leave(h, c))
    ensures forall k :: k in Leave(h, c).rooms ==> c !in Leave(h, c).rooms[k].members
    ensures c.roomID in h.rooms && h.rooms[c.roomID].members == {c} ==> GetRoom(Leave(h, c), c.roomID) == None
  {
    UnregisterKeepsValid(h, c);
    EmptyRoomKeepsValid(Unregister(h, c), c.roomID);
  }

  /** Registers clients one after another. */
  function RegisterAll(h: Hub, cs: seq<Client>): Hub
    decreases |cs|
  {
    if cs == [] then h else RegisterAll(Register(h, cs[0]), cs[1..])
  }

  /** The newcomers of a run of registrations that ask for room `k`. */
  function Joining(cs: seq<Client>, k: RoomID): set<Client>
    decreases |cs|
  {
    if cs == [] then {} else (if cs[0].roomID == k then {cs[0]} else {}) + Joining(cs[1..], k)
  }

  lemma {:induction false} JoiningIsFilter(cs: seq<Client>, k: RoomID)
    ensures forall c :: c in Joining(cs, k) <==> c in cs && c.roomID == k
    decreases |cs|
  {
    if cs != [] {
      JoiningIsFilter(cs[1..], k);
      assert forall c :: c in cs <==> c == cs[0] || c in cs[1..];
    }
  }

  /** The members of room `k`, none when it is not indexed. */
  function MembersAt(h: Hub, k: RoomID): set<Client> {
    if k in h.rooms then h.rooms[k].members else {}
  }

  /** One registration seen from room `k`. */
  lemma RegisterAt(h: Hub, c: Client, k: RoomID)
    ensures k in Register(h, c).rooms <==> k in h.rooms || c.roomID == k
    ensures MembersAt(Register(h, c), k) == MembersAt(h, k) + (if c.roomID == k then {c} else {})
  {
  }

  /** After a run of registrations, each room holds exactly what it held
      plus the newcomers that asked for it: rooms never receive clients
      meant for another room. */
  lemma {:induction false} RegisterAllMembers(h: Hub, cs: seq<Client>, k: RoomID)
    ensures k in RegisterAll(h, cs).rooms <==> k in h.rooms || Joining(cs, k) != {}
    ensures MembersAt(RegisterAll(h, cs), k) == MembersAt(h, k) + Joining(cs, k)
    decreases |cs|
  {
    if cs != [] {
      var h1 := Register(h, cs[0]);
      assert RegisterAll(h, cs) == RegisterAll(h1, cs[1..]);
      RegisterAt(h, cs[0], k);
      RegisterAllMembers(h1, cs[1..], k);
    }
  }

  /** From a fresh hub, a room's count is the number of distinct newcomers
      that asked for it. */
  lemma CountAfterRegisterAll(cs: seq<Client>, k: RoomID)
    ensures Count(RegisterAll(NewHub(), cs), k) == |Joining(cs, k)|
  {
    RegisterAllMembers(NewHub(), cs, k);
    assert MembersAt(NewHub(), k) == {};
  }

  /** Three clients, two in "room1" and one in "room2", registered in any
      order into a fresh hub give member counts 2 and 1. */
  lemma TwoRoomsStaySeparate(cs: seq<Client>, u1: Client, u2: Client, u3: Client)
    requires u1.roomID == "room1" && u3.roomID == "room1" && u2.roomID == "room2" && u1 != u3
    requires forall c :: c in cs <==> c == u1 || c == u2 || c == u3
    ensures Count(RegisterAll(NewHub(), cs), "room1") == 2
    ensures Count(RegisterAll(NewHub(), cs), "room2") == 1
  {
    var r1: RoomID, r2: RoomID := "room1", "room2";
    assert r1[4] != r2[4];
    JoiningIsFilter(cs, r1);
    JoiningIsFilter(cs, r2);
    forall c
      ensures c in Joining(cs, r1) <==> c in {u1, u3}
      ensures c in Joining(cs, r2) <==> c in {u2}
    {
      assert c in cs <==> c == u1 || c == u2 || c == u3;
    }
    assert Joining(cs, r1) == {u1, u3};
    assert Joining(cs, r2) == {u2};
    CountAfterRegisterAll(cs, r1);
    CountAfterRegisterAll(cs, r2);
  }


}
