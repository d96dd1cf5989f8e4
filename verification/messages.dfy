/** The wire schema: the message envelope, its type tag and the payload
    shapes the relay distinguishes. JSON encoding itself is abstracted:
    a payload is already one of the shapes below. */
module Messages {
  import opened Types

  /** The type tags the reader routes on; anything else is kept verbatim. */
  datatype MsgKind = Chat | Offer | Answer | Candidate | Other(tag: string)
  {
    predicate IsSignal() {
      Offer? || Answer? || Candidate?
    }
  }

  const ChatTag: string := "chat"
  const OfferTag: string := "webrtc_offer"
  const AnswerTag: string := "webrtc_answer"
  const CandidateTag: string := "webrtc_candidate"

  predicate IsKnownTag(tag: string) {
    tag == ChatTag || tag == OfferTag || tag == AnswerTag || tag == CandidateTag
  }

  /** The wire spelling of a kind. */
  function Tag(k: MsgKind): string {
    match k
    case Chat => ChatTag
    case Offer => OfferTag
    case Answer => AnswerTag
    case Candidate => CandidateTag
    case Other(t) => t
  }

  /** A kind is canonical when an `Other` does not hide a known tag. */
  predicate Canonical(k: MsgKind) {
    k.Other? ==> !IsKnownTag(k.tag)
  }

  /** Reads the `type` field the way the reader's switch does: an exact,
      case-sensitive match against the four recognised tags. */
  function Classify(tag: string): (k: MsgKind)
    ensures Canonical(k)
    ensures Tag(k) == tag
    ensures k.Other? <==> !IsKnownTag(tag)
  {
    if tag == ChatTag then Chat
    else if tag == OfferTag then Offer
    else if tag == AnswerTag then Answer
    else if tag == CandidateTag then Candidate
    else Other(tag)
  }

  /** Classification and spelling are inverse on canonical kinds. */
  lemma ClassifyTag(k: MsgKind)
    requires Canonical(k)
    ensures Classify(Tag(k)) == k
  {
  }

  /** ICE line index is a 16-bit unsigned field. */
  type Uint16 = x: int | 0 <= x < 0x1_0000

  /** A network path descriptor; carried opaquely. */
  datatype IceCandidate = IceCandidate(candidate: string, sdpMid: string, sdpMLineIndex: Uint16)

  /** The nested payload of the three webrtc_* kinds. An empty
      `targetUserID` means "no target". */
  datatype Signal = Signal(signalType: string, sdp: string, candidate: Option<IceCandidate>, targetUserID: UserID)

  /** The zero value a JSON object with none of the signal fields decodes to. */
  const EmptySignal: Signal := Signal("", "", None, "")

  /** Payload as a tagged union of the shapes a client can send:
      - a chat object;
      - any other JSON object, read through the signal fields it carries
        (an object with none of them, such as `{"foo":1}`, is
        `SignalBody(EmptySignal)`);
      - `null`, which is also what an absent `payload` field re-encodes to;
      - any other JSON value (string, number, boolean, array), kept as its
        text. */
  datatype Payload =
    | ChatBody(content: string, userDisplayName: string)
    | SignalBody(signal: Signal)
    | Null
    | Opaque(raw: string)

  /** Re-reads a payload as a signal object. A JSON object always decodes,
      with absent fields left at their zero value, so a chat object reads as
      the empty signal; `null` leaves the zero signal untouched and is no
      error; any other value fails. */
  function DecodeSignal(p: Payload): (r: Option<Signal>)
    ensures r.None? <==> p.Opaque?
    ensures p.SignalBody? ==> r == Some(p.signal)
    ensures p.ChatBody? || p.Null? ==> r == Some(EmptySignal)
  {
    match p
    case SignalBody(s) => Some(s)
    case ChatBody(_, _) => Some(EmptySignal)
    case Null => Some(EmptySignal)
    case Opaque(_) => None
  }

  /** Only a payload that carries signal fields can name a target: whatever
      else decodes, decodes untargeted. */
  lemma DecodedTargetNeedsSignalFields(p: Payload)
    requires DecodeSignal(p).Some? && DecodeSignal(p).value.targetUserID != ""
    ensures p.SignalBody? && p.signal.targetUserID == DecodeSignal(p).value.targetUserID
  {
  }

  /** The envelope. `roomID`, `senderUserID` and `timestamp` may be supplied
      by the client but are overwritten on ingress. The timestamp is
      milliseconds since the Unix epoch. */
  datatype Message = Message(kind: string, payload: Payload, roomID: RoomID, senderUserID: UserID, timestamp: int)

  /** Stamps a decoded message with the server-known sender, room and time. */
  function Enrich(m: Message, c: Client, now: int): (r: Message)
    ensures r.kind == m.kind && r.payload == m.payload
    ensures r.senderUserID == c.userID && r.roomID == c.roomID && r.timestamp == now
  {
    m.(senderUserID := c.userID, roomID := c.roomID, timestamp := now)
  }

  /** Nothing a client puts in the three server-owned fields survives:
      two messages with the same type and payload enrich identically. */
  lemma EnrichDiscardsClientFields(m1: Message, m2: Message, c: Client, now: int)
    requires m1.kind == m2.kind && m1.payload == m2.payload
    ensures Enrich(m1, c, now) == Enrich(m2, c, now)
  {
  }

  /** Enriching an already enriched message changes nothing. */
  lemma EnrichIdempotent(m: Message, c: Client, now: int)
    ensures Enrich(Enrich(m, c, now), c, now) == Enrich(m, c, now)
  {
  }
}
