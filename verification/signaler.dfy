/** A standalone membership tracker: each room ID maps to the ordered list
    of user IDs in it. Calls are serialised by a lock, so each is a pure
    state transition here. */
module Signaler {
  import opened Types

  datatype Signaler = Signaler(rooms: map<RoomID, seq<UserID>>)

  predicate NoDuplicates(xs: seq<UserID>) {
    forall i, j :: 0 <= i < j < |xs| ==> xs[i] != xs[j]
  }

  /** Every stored list is non-empty and lists each user once. */
  predicate Valid(s: Signaler) {
    forall k :: k in s.rooms ==> |s.rooms[k]| > 0 && NoDuplicates(s.rooms[k])
  }

  function NewSignaler(): (s: Signaler)
    ensures |s.rooms| == 0 && Valid(s)
  {
    Signaler(map[])
  }

  /** `xs` with every occurrence of `u` filtered out, the rest in order. */
  function Without(xs: seq<UserID>, u: UserID): (r: seq<UserID>)
    ensures |r| <= |xs|
    ensures forall x :: x in r <==> x in xs && x != u
    ensures u !in xs ==> r == xs
    ensures NoDuplicates(xs) ==> NoDuplicates(r)
    ensures NoDuplicates(xs) && u in xs ==> |r| == |xs| - 1
    decreases |xs|
  {
    if xs == [] then []
    else
      NoDuplicatesSplit(xs);
      if xs[0] == u then Without(xs[1..], u)
      else
        var tail := Without(xs[1..], u);
        NoDuplicatesCons(xs[0], tail);
        [xs[0]] + tail
  }

  lemma NoDuplicatesSplit(xs: seq<UserID>)
    requires xs != []
    ensures NoDuplicates(xs) <==> xs[0] !in xs[1..] && NoDuplicates(xs[1..])
  {
    if NoDuplicates(xs) {
      forall x | x in xs[1..]
        ensures x != xs[0]
      {
        var j :| 0 <= j < |xs[1..]| && xs[1..][j] == x;
        assert xs[j + 1] == x;
      }
      forall i, j | 0 <= i < j < |xs[1..]|
        ensures xs[1..][i] != xs[1..][j]
      {
        assert xs[1..][i] == xs[i + 1] && xs[1..][j] == xs[j + 1];
      }
    }
  }

  lemma NoDuplicatesCons(x: UserID, xs: seq<UserID>)
    ensures NoDuplicates([x] + xs) <==> x !in xs && NoDuplicates(xs)
  {
    NoDuplicatesSplit([x] + xs);
    assert ([x] + xs)[1..] == xs;
  }

  /** Filtering distributes over concatenation, so the relative order of
      the users that stay is kept. */
  lemma {:induction false} WithoutAppend(xs: seq<UserID>, ys: seq<UserID>, u: UserID)
    ensures Without(xs + ys, u) == Without(xs, u) + Without(ys, u)
    decreases |xs|
  {
    if xs != [] {
      assert (xs + ys)[1..] == xs[1..] + ys;
      WithoutAppend(xs[1..], ys, u);
    } else {
      assert xs + ys == ys;
    }
  }

  /** Adds a user: an unknown room is created holding just that user, a user
      already present changes nothing, and a newcomer goes at the end. */
  function AddUserToRoom(s: Signaler, room: RoomID, user: UserID): (s': Signaler)
    ensures room in s'.rooms && user in s'.rooms[room]
    ensures room !in s.rooms ==> s'.rooms[room] == [user]
    ensures room in s.rooms && user in s.rooms[room] ==> s' == s
    ensures room in s.rooms && user !in s.rooms[room] ==> s'.rooms[room] == s.rooms[room] + [user]
    ensures s'.rooms.Keys == s.rooms.Keys + {room}
    ensures forall k :: k in s.rooms && k != room ==> s'.rooms[k] == s.rooms[k]
    ensures Valid(s) ==> Valid(s')
  {
    if room !in s.rooms then Signaler(s.rooms[room := [user]])
    else if user in s.rooms[room] then s
    else Signaler(s.rooms[room := s.rooms[room] + [user]])
  }

  /** Removes a user: an unknown room is left alone; otherwise the user is
      filtered out, and a room left with nobody is deleted. */
  function RemoveUserFromRoom(s: Signaler, room: RoomID, user: UserID): (s': Signaler)
    ensures room !in s.rooms ==> s' == s
    ensures room in s.rooms && s.rooms[room] != [] && user !in s.rooms[room] ==> s' == s
    ensures room in s.rooms && Without(s.rooms[room], user) != [] ==> room in s'.rooms && s'.rooms[room] == Without(s.rooms[room], user)
    ensures room in s.rooms && Without(s.rooms[room], user) == [] ==> s'.rooms.Keys == s.rooms.Keys - {room}
    ensures room in s'.rooms ==> user !in s'.rooms[room]
    ensures forall k :: k != room ==> (k in s'.rooms <==> k in s.rooms)
    ensures forall k :: k in s.rooms && k != room ==> s'.rooms[k] == s.rooms[k]
    ensures Valid(s) ==> Valid(s')
  {
    if room !in s.rooms then s
    else
      var rest := Without(s.rooms[room], user);
      if |rest| == 0 then Signaler(s.rooms - {room}) else Signaler(s.rooms[room := rest])
  }

  /** A copy of the room's list and true, or an empty list and false for an
      unknown room. */
  function GetUsersInRoom(s: Signaler, room: RoomID): (r: (seq<UserID>, bool))
    ensures r.1 <==> room in s.rooms
    ensures r.1 ==> r.0 == s.rooms[room]
    ensures !r.1 ==> r.0 == []
    ensures Valid(s) ==> (r.1 <==> r.0 != [])
  {
    if room in s.rooms then (s.rooms[room], true) else ([], false)
  }

  /** Adding the same user twice is adding it once. */
  lemma AddIdempotent(s: Signaler, room: RoomID, user: UserID)
    ensures AddUserToRoom(AddUserToRoom(s, room, user), room, user) == AddUserToRoom(s, room, user)
  {
  }

  /** Adding a user who was not there and removing it again restores the
      signaler exactly, including deleting a room it created. */
  lemma {:induction false} AddThenRemove(s: Signaler, room: RoomID, user: UserID)
    requires Valid(s)
    requires room !in s.rooms || user !in s.rooms[room]
    ensures RemoveUserFromRoom(AddUserToRoom(s, room, user), room, user) == s
  {
    if room in s.rooms {
      var xs := s.rooms[room];
      WithoutAppend(xs, [user], user);
      assert Without([user], user) == [];
      assert Without(xs + [user], user) == xs;
      assert s.rooms[room := xs] == s.rooms;
    } else {
      assert Without([user], user) == [];
      assert s.rooms[room := [user]] - {room} == s.rooms;
    }
  }

  /** The behaviour the tracker's own tests pin down: three users join,
      one leaves, the rest leave and the room is gone; a stranger's removal
      changes nothing. */
  lemma Scenario()
    ensures var s := AddUserToRoom(AddUserToRoom(AddUserToRoom(NewSignaler(), "room456", "userX"), "room456", "userY"), "room456", "userZ");
            && GetUsersInRoom(RemoveUserFromRoom(s, "room456", "userY"), "room456") == (["userX", "userZ"], true)
            && GetUsersInRoom(RemoveUserFromRoom(RemoveUserFromRoom(RemoveUserFromRoom(s, "room456", "userY"), "room456", "userX"), "room456", "userZ"), "room456") == ([], false)
    ensures var s := AddUserToRoom(NewSignaler(), "room456", "userX");
            RemoveUserFromRoom(s, "room456", "nonExistentUser") == s
  {
    var x, y, z: UserID := "userX", "userY", "userZ";
    assert x[4] != y[4] && y[4] != z[4] && x[4] != z[4];
    var s := AddUserToRoom(AddUserToRoom(AddUserToRoom(NewSignaler(), "room456", x), "room456", y), "room456", z);
    assert s.rooms["room456"] == [x, y, z];
    assert Without([x, y, z], y) == [x, z] by {
      assert [x, y, z][1..] == [y, z];
      assert [y, z][1..] == [z];
      assert [z][1..] == [];
    }
    var s1 := RemoveUserFromRoom(s, "room456", y);
    assert s1.rooms["room456"] == [x, z];
    assert Without([x, z], x) == [z] by {
      assert [x, z][1..] == [z];
      assert [z][1..] == [];
    }
    var s2 := RemoveUserFromRoom(s1, "room456", x);
    assert s2.rooms["room456"] == [z];
    assert Without([z], z) == [] by {
      assert [z][1..] == [];
    }
    var n: UserID := "nonExistentUser";
    assert n[0] != x[0];
  }

}
