/** A client's bounded outbound queue and the non-blocking fan-out onto
    several such queues. Sending never waits: a full queue drops the copy. */
module SendQueue {
  import opened Types
  import opened Messages

  /** Capacity every client's queue is created with. */
  const SendBufferSize: nat := 256

  /** First-in first-out buffer holding at most `capacity` messages. */
  datatype Queue = Queue(items: seq<Message>, capacity: nat)
  {
    predicate Valid() {
      |items| <= capacity
    }

    predicate IsFull() {
      |items| >= capacity
    }
  }

  function NewQueue(capacity: nat): (q: Queue)
    ensures q.Valid() && q.capacity == capacity && q.items == []
  {
    Queue([], capacity)
  }

  /** Non-blocking send: appended at the tail when there is room, otherwise
      the queue is returned untouched and the message is lost. */
  function Enqueue(q: Queue, m: Message): (r: Queue)
    ensures r.capacity == q.capacity
    ensures q.Valid() ==> r.Valid()
    ensures !q.IsFull() ==> r.items == q.items + [m]
    ensures q.IsFull() ==> r == q
  {
    if |q.items| < q.capacity then q.(items := q.items + [m]) else q
  }

  /** The writer's receive: the oldest message and the remaining queue. */
  function Dequeue(q: Queue): (r: Option<(Message, Queue)>)
    ensures r.None? <==> q.items == []
    ensures r.Some? ==> r.value.0 == q.items[0] && [r.value.0] + r.value.1.items == q.items
    ensures r.Some? ==> r.value.1.capacity == q.capacity
  {
    if q.items == [] then None else Some((q.items[0], q.(items := q.items[1..])))
  }

  /** Everything the writer takes out, dequeuing until the queue is empty:
      exactly the stored messages, oldest first. */
  function Drain(q: Queue): (out: seq<Message>)
    ensures out == q.items
    decreases |q.items|
  {
    match Dequeue(q)
    case None => []
    case Some((m, rest)) => [m] + Drain(rest)
  }

  /** Sends `ms` one after the other. */
  function EnqueueAll(q: Queue, ms: seq<Message>): Queue
    decreases |ms|
  {
    if ms == [] then q else EnqueueAll(Enqueue(q, ms[0]), ms[1..])
  }

  function Min(a: int, b: int): int {
    if a <= b then a else b
  }

  /** Sending a run of messages keeps the longest prefix that fits and
      drops the rest; what is kept follows what was already queued. */
  lemma {:induction false} EnqueueAllKeepsFittingPrefix(q: Queue, ms: seq<Message>)
    requires q.Valid()
    ensures EnqueueAll(q, ms).capacity == q.capacity
    ensures EnqueueAll(q, ms).Valid()
    ensures EnqueueAll(q, ms).items == q.items + ms[..Min(|ms|, q.capacity - |q.items|)]
    decreases |ms|
  {
    if ms != [] {
      var q1 := Enqueue(q, ms[0]);
      EnqueueAllKeepsFittingPrefix(q1, ms[1..]);
      if q.IsFull() {
        assert Min(|ms[1..]|, q1.capacity - |q1.items|) == 0;
        assert Min(|ms|, q.capacity - |q.items|) == 0;
      } else {
        var k := Min(|ms[1..]|, q1.capacity - |q1.items|);
        assert Min(|ms|, q.capacity - |q.items|) == k + 1;
        assert ms[..k + 1] == [ms[0]] + ms[1..][..k];
      }
    }
  }

  /** First in, first out: messages that fit come out in the order sent. */
  lemma FifoOrder(q: Queue, ms: seq<Message>)
    requires q.Valid() && |q.items| + |ms| <= q.capacity
    ensures Drain(EnqueueAll(q, ms)) == q.items + ms
  {
    EnqueueAllKeepsFittingPrefix(q, ms);
    assert ms[..Min(|ms|, q.capacity - |q.items|)] == ms;
  }

  /** Independent non-blocking enqueue of one message onto the queue of
      every recipient. A recipient without a queue, or with a full one,
      silently misses this copy; nobody else is affected. */
  function Deliver(queues: map<Client, Queue>, recipients: set<Client>, m: Message): (r: map<Client, Queue>)
    ensures r.Keys == queues.Keys
    ensures forall c :: c in queues && c in recipients ==> r[c] == Enqueue(queues[c], m)
    ensures forall c :: c in queues && c in recipients && !queues[c].IsFull() ==> r[c].items == queues[c].items + [m] && r[c].capacity == queues[c].capacity
    ensures forall c :: c in queues && (c !in recipients || queues[c].IsFull()) ==> r[c] == queues[c]
  {
    map c | c in queues :: if c in recipients then Enqueue(queues[c], m) else queues[c]
  }

  /** Every queue within its bound stays within it. */
  predicate AllValid(queues: map<Client, Queue>) {
    forall c :: c in queues ==> queues[c].Valid()
  }

  lemma DeliverKeepsBounds(queues: map<Client, Queue>, recipients: set<Client>, m: Message)
    requires AllValid(queues)
    ensures AllValid(Deliver(queues, recipients, m))
  {
  }
}
