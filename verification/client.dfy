/** The reading side of one connection: what happens to each inbound frame,
    and how the connection leaves the hub when reading stops. Frames are
    taken one at a time; the room's member set is the snapshot the reader
    sees when it handles the frame. */
module Clients {
  import opened Types
  import opened Messages
  import opened SendQueue
  import Rooms
  import Hubs

  /** Why a frame produced no delivery. In every case the reader goes on
      with the next frame. */
  datatype DropReason = Undecodable | NoRoom | UnknownType | BadSignal

  /** The routing decision for one frame. */
  datatype Action =
    | Drop(reason: DropReason)
    | Broadcast(msg: Message)
    | Deliver(msg: Message, to: set<Client>)

  /** The three tests the fan-out loop applies to each peer, in order:
      a candidate is never echoed, a target restricts delivery to peers
      with that user ID, and the sender itself is reached only when it is
      the target. */
  predicate Passes(p: Client, sender: Client, kind: MsgKind, target: UserID) {
    && !(kind == Candidate && p == sender)
    && (target == "" || p.userID == target)
    && (p != sender || target == sender.userID)
  }

  /** Recipients of a signal among the members of the sender's room. */
  function Recipients(members: set<Client>, sender: Client, kind: MsgKind, target: UserID): (r: set<Client>)
    ensures r <= members
    ensures kind == Candidate ==> sender !in r
    ensures target != "" && kind != Candidate ==> r == set p | p in members && p.userID == target
    ensures target != "" && kind == Candidate ==> r == (set p | p in members && p.userID == target) - {sender}
    ensures target == "" && (kind == Candidate || sender.userID != "") ==> r == members - {sender}
    ensures target == "" && kind != Candidate && sender.userID == "" ==> r == members
  {
    set p | p in members && Passes(p, sender, kind, target)
  }

  /** Decides what one inbound frame does. `frame` is the decoded message,
      or None when the frame is not a valid message; `room` is the member
      set of the client's room, or None while no room is assigned. The
      message is stamped with the sender's identity, room and `now` before
      anything else. */
  function Ingress(sender: Client, room: Option<set<Client>>, frame: Option<Message>, now: int): (a: Action)
    ensures frame.None? ==> a == Drop(Undecodable)
    ensures frame.Some? && room.None? ==> a == Drop(NoRoom)
    ensures a.Drop? <==> frame.None? || room.None? || Classify(frame.value.kind).Other?
                         || (Classify(frame.value.kind).IsSignal() && DecodeSignal(frame.value.payload).None?)
    ensures a.Broadcast? <==> frame.Some? && room.Some? && Classify(frame.value.kind) == Chat
    ensures !a.Drop? ==> a.msg == Enrich(frame.value, sender, now)
    ensures !a.Drop? ==> a.msg.senderUserID == sender.userID && a.msg.roomID == sender.roomID && a.msg.timestamp == now
    ensures a.Deliver? ==> a.to <= room.value
    ensures a.Deliver? ==> a.to == Recipients(room.value, sender, Classify(frame.value.kind), DecodeSignal(frame.value.payload).value.targetUserID)
    ensures a.Deliver? && Classify(frame.value.kind) == Candidate ==> sender !in a.to
  {
    match frame
    case None => Drop(Undecodable)
    case Some(raw) =>
      var m := Enrich(raw, sender, now);
      if room.None? then Drop(NoRoom)
      else
        var kind := Classify(m.kind);
        if kind == Chat then Broadcast(m)
        else if kind.Other? then Drop(UnknownType)
        else
          match DecodeSignal(m.payload)
          case None => Drop(BadSignal)
          case Some(s) => Deliver(m, Recipients(room.value, sender, kind, s.targetUserID))
  }

  /** The clients an action enqueues to: the whole room for a broadcast
      (the sender included), the chosen recipients for a signal. */
  function Targets(a: Action, members: set<Client>): set<Client> {
    match a
    case Drop(_) => {}
    case Broadcast(_) => members
    case Deliver(_, to) => to
  }

  /** The effect of one action on every outbound queue. */
  function Apply(queues: map<Client, Queue>, members: set<Client>, a: Action): map<Client, Queue> {
    if a.Drop? then queues else SendQueue.Deliver(queues, Targets(a, members), a.msg)
  }

  /** The signal fan-out loop: walks the room's members, applies the three
      tests to each, and does a non-blocking send to each one that passes. */
  method RelaySignal(queues: map<Client, Queue>, members: set<Client>, sender: Client, kind: MsgKind, target: UserID, m: Message)
    returns (out: map<Client, Queue>)
    ensures out == SendQueue.Deliver(queues, Recipients(members, sender, kind, target), m)
  {
    out := queues;
    var rest := members;
    ghost var done: set<Client> := {};
    while rest != {}
      invariant rest <= members && done == members - rest
      invariant out.Keys == queues.Keys
      invariant forall c :: c in queues ==> out[c] == (if c in done && Passes(c, sender, kind, target) then Enqueue(queues[c], m) else queues[c])
      decreases |rest|
    {
      var p :| p in rest;
      ghost var before := out;
      if kind == Candidate && p == sender {
        // a candidate is not sent back to its author
        assert !Passes(p, sender, kind, target);
      } else if target != "" && p.userID != target {
        // not the addressed user
        assert !Passes(p, sender, kind, target);
      } else if p != sender || target == sender.userID {
        assert Passes(p, sender, kind, target);
        if p in out {
          out := out[p := Enqueue(out[p], m)];
        }
      } else {
        assert !Passes(p, sender, kind, target);
      }
      rest := rest - {p};
      done := done + {p};
      assert forall c :: c in queues && c != p ==> out[c] == before[c];
    }
    LoopResultIsDelivery(queues, members, sender, kind, target, m, out);
  }

  /** The per-peer outcome of the fan-out loop is the set-level delivery. */
  lemma LoopResultIsDelivery(queues: map<Client, Queue>, members: set<Client>, sender: Client, kind: MsgKind, target: UserID, m: Message, out: map<Client, Queue>)
    requires out.Keys == queues.Keys
    requires forall c :: c in queues ==> out[c] == (if c in members && Passes(c, sender, kind, target) then Enqueue(queues[c], m) else queues[c])
    ensures out == SendQueue.Deliver(queues, Recipients(members, sender, kind, target), m)
  {
    var r := Recipients(members, sender, kind, target);
    assert forall c :: c in r <==> c in members && Passes(c, sender, kind, target);
    var spec := SendQueue.Deliver(queues, r, m);
    assert forall c :: c in queues ==> out[c] == spec[c];
  }

  /** Handles one frame end to end: the routing decision, then the chat
      broadcast through the room or the signal fan-out. */
  method HandleFrame(queues: map<Client, Queue>, sender: Client, room: Option<set<Client>>, frame: Option<Message>, now: int)
    returns (out: map<Client, Queue>, a: Action)
    ensures a == Ingress(sender, room, frame, now)
    ensures out.Keys == queues.Keys
    ensures a.Drop? ==> out == queues
    ensures !a.Drop? ==> forall c :: c in queues && c in Targets(a, room.value) ==> out[c] == Enqueue(queues[c], a.msg)
    ensures !a.Drop? ==> forall c :: c in queues && c in Targets(a, room.value) && !queues[c].IsFull() ==> out[c].items == queues[c].items + [a.msg]
    ensures AllValid(queues) ==> AllValid(out)
    ensures forall c :: c in queues && (a.Drop? || c !in Targets(a, room.value) || queues[c].IsFull()) ==> out[c] == queues[c]
  {
    a := Ingress(sender, room, frame, now);
    match a
    case Drop(_) =>
      out := queues;
    case Broadcast(m) =>
      out := Rooms.Broadcast(queues, Rooms.Room(sender.roomID, room.value), m);
    case Deliver(m, to) =>
      var kind := Classify(m.kind);
      var target := DecodeSignal(m.payload).value.targetUserID;
      out := RelaySignal(queues, room.value, sender, kind, target, m);
  }

  /** Routing outcomes the reader's switch and fan-out loop produce (the
      relay's tests exercise the chat and the targeted offer, observing
      only the addressed peer): a chat from A in {A, B} reaches both with A's identity stamped over a
      spoofed one; an offer from A targeted at B in {A, B, C} reaches B only;
      an untargeted candidate from A reaches B and C but not A. */
  lemma RoutingExamples(a: Client, b: Client, c: Client, now: int)
    requires a.userID != "" && b.userID != "" && c.userID != ""
    requires a.userID != b.userID && b.userID != c.userID && a.userID != c.userID
    ensures var chat := Message(ChatTag, ChatBody("Hello, World!", "User1"), "elsewhere", "impostor", 0);
            var act := Ingress(a, Some({a, b}), Some(chat), now);
            act.Broadcast? && Targets(act, {a, b}) == {a, b} && act.msg.senderUserID == a.userID
    ensures var offer := Message(OfferTag, SignalBody(Signal("offer", "test-sdp", None, b.userID)), "", "", 0);
            Ingress(a, Some({a, b, c}), Some(offer), now).to == {b}
    ensures var cand := Message(CandidateTag, SignalBody(Signal("candidate", "", None, "")), "", "", 0);
            Ingress(a, Some({a, b, c}), Some(cand), now).to == {b, c}
  {
    assert a != b && b != c && a != c;
    var offer := Message(OfferTag, SignalBody(Signal("offer", "test-sdp", None, b.userID)), "", "", 0);
    assert Classify(OfferTag) == Offer;
    assert (set p | p in {a, b, c} && p.userID == b.userID) == {b};
    var cand := Message(CandidateTag, SignalBody(Signal("candidate", "", None, "")), "", "", 0);
    assert Classify(CandidateTag) == Candidate;
    assert {a, b, c} - {a} == {b, c};
  }

  /** A signal sent with no payload at all re-encodes as `null`, which
      decodes to the empty signal without error: it is relayed untargeted,
      here from A to the other member B. */
  lemma MissingPayloadRelayed(a: Client, b: Client, now: int)
    requires a != b && a.userID != ""
    ensures var offer := Message(OfferTag, Null, "", "", 0);
            Ingress(a, Some({a, b}), Some(offer), now) == Deliver(Enrich(offer, a, now), {b})
  {
    assert Classify(OfferTag) == Offer;
    assert {a, b} - {a} == {b};
  }

  /** One inbound frame as the reader sees it. */
  datatype Inbound = Inbound(frame: Option<Message>, room: Option<set<Client>>, now: int)

  function Members(room: Option<set<Client>>): set<Client> {
    if room.Some? then room.value else {}
  }

  /** The effect of one frame on the outbound queues. */
  function Step(queues: map<Client, Queue>, sender: Client, e: Inbound): (r: map<Client, Queue>)
    ensures r.Keys == queues.Keys
    ensures forall c :: c in queues ==> queues[c].items <= r[c].items && |r[c].items| <= |queues[c].items| + 1
    ensures forall c :: c in queues && c !in Members(e.room) ==> r[c] == queues[c]
    ensures AllValid(queues) ==> AllValid(r)
  {
    Apply(queues, Members(e.room), Ingress(sender, e.room, e.frame, e.now))
  }

  /** The reader loop over a run of frames. */
  function Pump(queues: map<Client, Queue>, sender: Client, es: seq<Inbound>): (r: map<Client, Queue>)
    ensures r.Keys == queues.Keys
    ensures forall c :: c in queues ==> |r[c].items| <= |queues[c].items| + |es|
    ensures AllValid(queues) ==> AllValid(r)
    decreases |es|
  {
    if es == [] then queues else Pump(Step(queues, sender, es[0]), sender, es[1..])
  }

  /** A frame that is dropped, for whatever reason, has no effect at all:
      the loop carries on exactly as if the frame had never arrived. */
  lemma {:induction false} PumpSkipsDropped(queues: map<Client, Queue>, sender: Client, es: seq<Inbound>, i: nat)
    requires i < |es|
    requires Ingress(sender, es[i].room, es[i].frame, es[i].now).Drop?
    ensures Pump(queues, sender, es) == Pump(queues, sender, es[..i] + es[i + 1..])
    decreases i
  {
    if i == 0 {
      assert es[..0] + es[1..] == es[1..];
    } else {
      PumpSkipsDropped(Step(queues, sender, es[0]), sender, es[1..], i - 1);
      assert (es[..i] + es[i + 1..])[1..] == es[1..][..i - 1] + es[1..][i..];
    }
  }

  /** Reading never removes anything already queued, and never creates or
      forgets a queue. */
  lemma {:induction false} PumpOnlyAppends(queues: map<Client, Queue>, sender: Client, es: seq<Inbound>)
    ensures Pump(queues, sender, es).Keys == queues.Keys
    ensures forall c :: c in queues ==> queues[c].items <= Pump(queues, sender, es)[c].items
    decreases |es|
  {
    if es != [] {
      var q1 := Step(queues, sender, es[0]);
      PumpOnlyAppends(q1, sender, es[1..]);
    }
  }

  /** Teardown when reading stops: through the room if one was assigned
      (`roomAssigned`), otherwise through the hub, which looks the room up by
      the client's RoomID. The assigned room is the one indexed under that
      ID, so both routes remove the client from the same member set: the
      two branches coincide by construction, and `roomAssigned` only names
      which route the teardown takes. */
  function Disconnect(h: Hubs.Hub, c: Client, roomAssigned: bool): (h': Hubs.Hub)
    ensures h' == Hubs.Unregister(h, c)
    ensures h'.rooms.Keys == h.rooms.Keys
    ensures Hubs.Valid(h) ==> forall k :: k in h'.rooms ==> c !in h'.rooms[k].members
  {
    if roomAssigned then
      if c.roomID in h.rooms then Hubs.Hub(h.rooms[c.roomID := Rooms.Unregister(h.rooms[c.roomID], c)]) else h
    else
      Hubs.Unregister(h, c)
  }

  /** With the room's emptiness signal processed after the teardown, the
      client is in no room and no empty room is left indexed. */
  lemma DisconnectCascade(h: Hubs.Hub, c: Client, roomAssigned: bool)
    requires Hubs.Valid(h) && Hubs.Settled(h)
    ensures var h' := Hubs.EmptyRoom(Disconnect(h, c, roomAssigned), c.roomID);
            Hubs.Valid(h') && Hubs.Settled(h') && forall k :: k in h'.rooms ==> c !in h'.rooms[k].members
  {
    Hubs.LeaveKeepsSettled(h, c);
  }
}
