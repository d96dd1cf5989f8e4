# Signaling relay core, modelled in Dafny

This project models the sequential logic of a WebRTC signaling relay written in Go
(`internal/webrtc_signaling`). Clients connect into named rooms. A hub indexes rooms by
ID, creates a room on its first registration, and drops the room once it is empty. Each
client's reader stamps inbound messages with the server-known sender, room and time. It
then routes each message: a chat goes to the whole room, and a WebRTC offer, answer or
ICE candidate is fanned out to selected room members. Every send is a non-blocking push
onto the recipient's bounded queue. A separate, lock-protected tracker (the Signaler)
keeps an ordered user list per room.

The relay is concurrent: goroutines and channels for the hub, the rooms and each client's
two pumps. The model reads every event loop as "apply one event at a time". Each handler
is therefore a pure state transition over immutable values.

Modules, one file each:

- `types.dfy` (`Types`): `UserID`, `RoomID`, `Option`, and `Client`. `Client.id` stands
  for the identity of the connection object, so two connections of one user are two
  clients.
- `messages.dfy` (`Messages`): the envelope, the type tag (`Classify`/`Tag`), and the
  payload as a tagged union: chat object, signal object, or any other JSON value. It also
  holds signal re-decoding and server-side enrichment.
- `sendqueue.dfy` (`SendQueue`): the bounded FIFO outbound queue (capacity 256 as the
  tests create it), enqueue that drops when full, dequeue/drain, and `Deliver`, the
  independent non-blocking fan-out.
- `room.dfy` (`Rooms`): a room as an ID plus a member set. It has idempotent
  register/unregister, and a broadcast to everyone or to everyone but one.
- `hub.dfy` (`Hubs`): the room index `map<RoomID, Room>` with the Register, Unregister
  and EmptyRoom events and the read-only `GetRoom`.
- `client.dfy` (`Clients`): the per-frame routing decision `Ingress`, the recipient
  filter, the fan-out loop exactly as written (`RelaySignal`), the reader loop over a run
  of frames (`Pump`), and the disconnect cascade.
- `signaler.dfy` (`Signaler`): the membership tracker `map<RoomID, seq<UserID>>`.

Points where the code's behaviour is easy to misread, each modelled as the code has it:

- A signal with a target goes to every member whose user ID equals the target. That can
  be several members or none, not a single unicast peer. For an offer or answer it
  includes the sender when the target is the sender's own ID.
- An untargeted offer or answer goes to every other member. It also goes back to the
  sender when the sender's user ID is the empty string, because the self test at
  `client.go:102` compares the empty target with the sender's ID.
- Re-decoding the payload as a signal fails for a JSON value that is neither an object
  nor `null`, or for an object whose signal fields have the wrong JSON type (see "Left
  out"). A chat object, an object of any other shape, and `null` decode to
  the empty signal, which has no target. A signal sent with no payload field re-encodes
  its nil payload as `null`, so it is relayed untargeted (`Clients.MissingPayloadRelayed`).
  The model's `Null` payload stands for `null` and an absent payload; `Opaque` stands for
  the failing values (string, number, boolean, array, and a wrongly typed signal object).
- A room stays indexed while it is empty until the emptiness signal is processed. The
  invariant "indexed only when non-empty" (`Hubs.Settled`) holds between events once
  that signal has been handled (`Hubs.LeaveKeepsSettled`).
- The room's own source file is not part of this model. Room behaviour is limited to what
  the room tests assert: ID set at creation, idempotent add and remove, and broadcast to
  all members or to all but one. The room's "I am empty" notification to the hub is
  modelled as a separate `EmptyRoom` event that follows an unregistration (`Hubs.Leave`).

## Model

| member | source | states |
|---|---|---|
| Messages.Classify | internal/webrtc_signaling/client.go:73-116 | the type switch matches the four tags exactly; any other tag is kept verbatim as `Other`, and spelling the classified kind gives back the tag |
| Messages.ClassifyTag | internal/webrtc_signaling/client.go:73-81 | classifying the spelling of a canonical kind gives back the kind (round trip, the other direction) |
| Messages.DecodeSignal | internal/webrtc_signaling/client.go:84-89 | re-reading the payload as a signal fails for a value that is neither an object nor `null` (and, in Go only, for a wrongly typed signal object; see Left out); a signal object decodes to itself; a chat object, `null` and an absent payload decode to the empty, untargeted signal |
| Messages.DecodedTargetNeedsSignalFields | internal/webrtc_signaling/client.go:84-98 | a decoded signal names a target only when the payload carried a signal object with that target; every other decodable payload is untargeted |
| Messages.Enrich | internal/webrtc_signaling/client.go:62-65 | the stamped message keeps the client's type and payload and carries the connection's user ID, room ID and the read time, whatever the client put there |
| Messages.EnrichDiscardsClientFields | internal/webrtc_signaling/client.go:62-65 | client-supplied sender, room and timestamp never survive: two messages with equal type and payload enrich to the same message |
| Messages.EnrichIdempotent | internal/webrtc_signaling/client.go:62-65 | stamping an already stamped message changes nothing |
| SendQueue.NewQueue | internal/webrtc_signaling/client_test.go:41 | a new queue is empty, within bound, with the requested capacity (256 in the tests) |
| SendQueue.Enqueue | internal/webrtc_signaling/client.go:105-109 | a non-full queue gets the message at its tail; a full queue is returned unchanged; capacity and the bound are kept |
| SendQueue.Dequeue | internal/webrtc_signaling/client.go:129-134 | the writer receives the oldest message, and the rest of the queue follows it; an empty queue yields nothing |
| SendQueue.Drain | internal/webrtc_signaling/client.go:127-138 | dequeuing until empty yields exactly the stored messages, oldest first |
| SendQueue.EnqueueAllKeepsFittingPrefix | internal/webrtc_signaling/client.go:105-109 | a run of non-blocking sends keeps the longest prefix that fits, appended after what was queued, and drops the rest |
| SendQueue.FifoOrder | internal/webrtc_signaling/client.go:105-109 | messages that fit come out in the order they were sent |
| SendQueue.Deliver | internal/webrtc_signaling/client.go:104-110 | each recipient's queue becomes its non-blocking enqueue: with room it gets the message appended and keeps its capacity; full queues, non-recipients and clients without a queue are untouched; no queue is created or removed |
| SendQueue.DeliverKeepsBounds | internal/webrtc_signaling/client.go:105-109 | fan-out never pushes a queue past its capacity |
| Rooms.NewRoom | internal/webrtc_signaling/room_test.go:8-26 | a new room carries the given ID and has no members |
| Rooms.Register | internal/webrtc_signaling/room_test.go:28-62 | after registration the client is a member and nobody else joined; registering a member changes nothing; a newcomer raises the count by one |
| Rooms.Unregister | internal/webrtc_signaling/room_test.go:64-89 | after unregistration the client is not a member and every other member stays; a non-member changes nothing |
| Rooms.RegisterIdempotent | internal/webrtc_signaling/room_test.go:55-61 | a duplicate registration is a no-op |
| Rooms.UnregisterIdempotent | internal/webrtc_signaling/room_test.go:64-89 | a repeated unregistration is a no-op |
| Rooms.RegisterThenUnregister | internal/webrtc_signaling/room_test.go:79-88 | a newcomer that joins and leaves restores the room exactly |
| Rooms.Broadcast | internal/webrtc_signaling/room_test.go:91-142 | every member's queue becomes its non-blocking enqueue, so a member with room receives the message (the sender included) and keeps its capacity; nobody else's queue changes; every queue stays within its bound |
| Rooms.BroadcastExcluding | internal/webrtc_signaling/room_test.go:144-209 | as the broadcast, except the excluded client's queue never changes; every queue stays within its bound |
| Rooms.TwoMemberBroadcasts | internal/webrtc_signaling/room_test.go:91-209 | with members {1, 2}: the broadcast reaches both; excluding 1 reaches only 2 |
| Hubs.NewHub | internal/webrtc_signaling/hub.go:17-24 | a new hub indexes no room |
| Hubs.Register | internal/webrtc_signaling/hub.go:30-40 | an unindexed RoomID gets exactly one new room, keyed and named by that ID and holding just the client; an indexed one is reused with the client added; no other room changes |
| Hubs.Unregister | internal/webrtc_signaling/hub.go:42-48 | the client leaves its indexed room and no entry is added or removed; an unindexed RoomID is a no-op; other rooms are untouched |
| Hubs.EmptyRoom | internal/webrtc_signaling/hub.go:50-58 | the entry is deleted only if the room is indexed and has no member when the event is processed; otherwise nothing changes; no other entry changes |
| Hubs.GetRoom | internal/webrtc_signaling/hub.go:64-69 | finds a room exactly when the ID is indexed, and returns the indexed room |
| Hubs.RegisterKeepsValid | internal/webrtc_signaling/hub.go:30-40 | registration keeps every room keyed by its own ID with members that asked for it, and keeps the index free of empty rooms |
| Hubs.UnregisterKeepsValid | internal/webrtc_signaling/hub.go:42-48 | unregistration keeps the index consistent |
| Hubs.EmptyRoomKeepsValid | internal/webrtc_signaling/hub.go:50-58 | the emptiness event keeps the index consistent |
| Hubs.AtMostOneRoom | internal/webrtc_signaling/hub.go:30-40 | in a consistent index a client is a member of at most one room: the one keyed by its own RoomID |
| Hubs.RegisterThenGetRoom | internal/webrtc_signaling/hub_test.go:27-55 | after a registration, the client's room is found and contains the client; in a consistent index it carries the client's RoomID |
| Hubs.RegisterIdempotent | internal/webrtc_signaling/room_test.go:55-61 | registering the same client twice through the hub equals registering once: no second room, same count |
| Hubs.UnregisterIdempotent | internal/webrtc_signaling/hub.go:42-48 | a repeated unregistration is a no-op |
| Hubs.RegisterCommutes | internal/webrtc_signaling/hub_test.go:149-197 | the order in which two registrations are processed does not change the resulting index |
| Hubs.LeaveKeepsSettled | internal/webrtc_signaling/hub_test.go:57-115 | unregistering and then processing the emptiness signal keeps the index consistent and free of empty rooms; the client is in no room; the room of a last member is no longer found |
| Hubs.Leave | internal/webrtc_signaling/hub.go:42-58 | after unregistration and the emptiness event, other rooms are unchanged, no room is added, the client's room if still indexed holds exactly the other members and is non-empty, and the room of its last member is gone |
| Hubs.RegisterAllMembers | internal/webrtc_signaling/hub_test.go:149-197 | after any run of registrations, each room holds its old members plus exactly the newcomers that asked for it, and is indexed iff it was before or someone asked for it |
| Hubs.CountAfterRegisterAll | internal/webrtc_signaling/hub_test.go:149-197 | from a new hub, each room's count is the number of distinct clients that asked for it |
| Hubs.TwoRoomsStaySeparate | internal/webrtc_signaling/hub_test.go:149-197 | {u1, u3} into room1 and {u2} into room2, in any order, give counts 2 and 1 |
| Clients.Recipients | internal/webrtc_signaling/client.go:92-111 | recipients are room members; a candidate never goes to its sender; with a target, exactly the members with that user ID (minus the sender for a candidate); without one, every member but the sender, except that an offer or answer from a sender with empty user ID also reaches the sender |
| Clients.Ingress | internal/webrtc_signaling/client.go:56-116 | a frame is dropped iff it does not decode, no room is assigned, the type is unknown, or a signal payload does not decode; a chat becomes a broadcast; anything routed carries the enriched message stamped with the sender's ID, the room and `now`; signal recipients are exactly the members chosen by the three tests for the decoded target (`Clients.Recipients`), so a candidate skips its sender |
| Clients.RelaySignal | internal/webrtc_signaling/client.go:92-111 | the member-by-member loop with its three tests and non-blocking sends has the same effect as delivering to the recipient set |
| Clients.HandleFrame | internal/webrtc_signaling/client.go:56-116 | one frame end to end: the decision equals `Ingress`; each target's queue becomes its non-blocking enqueue of the enriched message, keeping its capacity; every other queue, and all queues on a drop, stay as they were; every queue stays within its bound |
| Clients.RoutingExamples | internal/webrtc_signaling/client.go:62-110 | a chat from A in {A, B} reaches both and carries A's ID over a spoofed one; an offer from A to B in {A, B, C} reaches only B; an untargeted candidate from A reaches exactly B and C |
| Clients.MissingPayloadRelayed | internal/webrtc_signaling/client.go:84-110 | an offer with no payload, from A in {A, B}, is not dropped: it is delivered to B alone as an untargeted signal |
| Clients.Step | internal/webrtc_signaling/client.go:56-116 | one frame keeps the set of queues, appends at most one message to each queue, and leaves every queue outside the sender's room untouched; every queue stays within its bound |
| Clients.Pump | internal/webrtc_signaling/client.go:47-117 | the reader loop over a run of frames keeps the set of queues and grows each queue by at most one message per frame; every queue stays within its bound throughout |
| Clients.PumpSkipsDropped | internal/webrtc_signaling/client.go:56-70 | a dropped frame leaves no trace: the reader's result equals the result without that frame, so the loop simply continues |
| Clients.PumpOnlyAppends | internal/webrtc_signaling/client.go:47-117 | reading never removes queued messages and never adds or forgets a queue |
| Clients.Disconnect | internal/webrtc_signaling/client.go:30-39 | leaving through the assigned room or through the hub has the same effect as the hub's unregistration; in a consistent index the client ends up in no room |
| Clients.DisconnectCascade | internal/webrtc_signaling/client.go:30-39 | disconnect followed by the room's emptiness signal keeps the index consistent and free of empty rooms, with the client in no room |
| Signaler.NewSignaler | internal/webrtc_signaling/signaler.go:16-22 | a new tracker has no rooms and satisfies the invariant |
| Signaler.Without | internal/webrtc_signaling/signaler.go:62-67 | filtering keeps exactly the other users, never lengthens the list, changes nothing for a non-member, keeps lists duplicate-free, and removes exactly one entry from a duplicate-free list containing the user |
| Signaler.WithoutAppend | internal/webrtc_signaling/signaler.go:62-67 | filtering distributes over concatenation, so the order of the remaining users is kept |
| Signaler.AddUserToRoom | internal/webrtc_signaling/signaler.go:24-47 | an absent room is created holding just the user; a present user changes nothing; a newcomer is appended after the existing users; no other room changes; the invariant (non-empty, duplicate-free lists) is kept |
| Signaler.RemoveUserFromRoom | internal/webrtc_signaling/signaler.go:50-77 | an absent room or a non-member changes nothing; otherwise the list is filtered and the room deleted when nothing is left; no other room changes; the invariant is kept |
| Signaler.GetUsersInRoom | internal/webrtc_signaling/signaler.go:79-94 | an unknown room gives an empty list and false; a known one gives its stored list and true; under the invariant, found iff the list is non-empty |
| Signaler.AddIdempotent | internal/webrtc_signaling/signaler.go:37-42 | adding the same user twice is adding once |
| Signaler.AddThenRemove | internal/webrtc_signaling/signaler.go:24-77 | adding a user who was not present and removing it restores the tracker exactly, including deleting a room the add created |
| Signaler.Scenario | internal/webrtc_signaling/signaler_test.go:55-100 | X, Y, Z join; removing Y leaves [X, Z]; removing X and Z deletes the room; removing a stranger changes nothing |

## Left out

- Goroutines, channels, `select`, the hub's read/write lock and the tracker's mutex. Each
  event loop is read as applying one event at a time, with no interleaving.
- Clients.Ingress: the member set is a snapshot passed in. The reader's unsynchronised
  read of the room's member map races with the room loop, and that race is not modelled.
- WebSocket I/O: read limit (1024 bytes), read and write deadlines, the pong handler, the
  ping ticker and frame writing. These are calls into the socket library and timers. The
  keepalive interval (54 s) is shorter than the idle-read deadline (60 s); the model has
  no clock to state this against.
- `writePump` beyond its receive from the queue (`SendQueue.Dequeue`): writing frames,
  the close handshake when the queue is closed, and the error paths.
- JSON encoding and decoding. A frame arrives already decoded, as `Option<Message>`.
  `Messages.DecodeSignal` abstracts the re-marshal/unmarshal of the payload.
- Messages.DecodeSignal: an object whose signal fields have the wrong JSON type (a number
  as `targetUserID`, say) fails in Go; the model has no such object, and `Opaque` stands
  for every failing payload.
- `time.Now()`: the timestamp is the parameter `now`.
- Logging, including the log line for a full recipient queue.
- The room's own source file is not part of this model. Its run loop and the exact timing
  of its emptiness notification are not modelled beyond the `EmptyRoom` event.
- Clients.Disconnect: does not model the case of a client whose room object is no
  longer the one indexed under its RoomID. That cannot arise while the client is a
  member, because a room with a member is never deleted.
- HTTP server wiring and the documentation generator (`internal/core/app.go`,
  `main.go`). They hold no relay logic.
- The system-notification payload and the ICE candidate contents, which are carried
  opaquely.
