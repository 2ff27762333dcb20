/** Two chat sessions end to end: the gate of `ChatSession::decrypt` in front of the two-party ratchet. */
module Conversation {
  import opened Results
  import opened Terms
  import opened Ratchet
  import opened SkipLoop
  import opened Channel
  import opened Snapshot
  import opened Pqxdh
  import opened Session
  import opened TwoParty

  /** What the handshake fixed: the identities, the conversation id and both sides' session keys. */
  datatype People = People(
    alice: IdentityKeyPair,
    bob: IdentityKeyPair,
    id: string,
    aliceKeys: SessionKeys,
    bobKeys: SessionKeys)

  function IdentityOf(people: People, side: Side): IdentityKeyPair {
    if side.Alice? then people.alice else people.bob
  }

  /** The session a side holds; the initiator is Alice. */
  function SessionOf(people: People, s: System, side: Side): Session {
    Session(people.id, Public(IdentityOf(people, side.Other())), side.Alice?, s.Of(side).ratchet,
            if side.Alice? then people.aliceKeys else people.bobKeys)
  }

  function EnvelopeOf(people: People, s: System, side: Side, n: nat): ChatEnvelope
    requires n < |s.Of(side).wire|
  {
    SignEnvelope(IdentityOf(people, side), people.id, Some(s.Of(side).wire[n].1), s.Of(side).wire[n].0)
  }

  /** `Hears` is the first delivery of message `n`; `Gets` hands over an arbitrary envelope. */
  datatype ChatEvent =
    | Says(who: Side, plaintext: Bytes)
    | Hears(who: Side, n: nat)
    | Gets(who: Side, envelope: ChatEnvelope)
    | Restarts(who: Side)

  /** What a signature vouches for. It covers the header bytes followed by the payload bytes, without
      their boundary, so a header that parses is one that was signed, while the payload may have lost
      leading bytes to the header slot, where the parser skips white space; it is then no box. */
  predicate Vouched(wire: seq<Message>, box: Box<Header>, header: Header) {
    exists n :: 0 <= n < |wire| && header == wire[n].1 && (box == wire[n].0 || box.Garbage?)
  }

  /** Does this envelope carry the peer's signature over its header and payload? */
  predicate SignedByPeer(people: People, who: Side, envelope: ChatEnvelope) {
    envelope.signature == SignedBy(Public(IdentityOf(people, who.Other())), (envelope.header, envelope.payload))
  }

  /** The network may hand over anything at any time, except that it cannot forge the peer's signature.
      The conversation id is not signed and may be anything. */
  predicate ChatEnabled(people: People, s: System, e: ChatEvent) {
    match e
    case Says(_, _) => true
    case Hears(who, n) => n < |s.Of(who.Other()).wire| && n !in s.Of(who).seen
    case Gets(who, envelope) =>
      envelope.header.Some? && SignedByPeer(people, who, envelope) ==>
        Vouched(s.Of(who.Other()).wire, envelope.payload, envelope.header.value)
    case Restarts(_) => true
  }

  /** The receiver's ratchet after the gate. */
  function Gated(session: Session, envelope: ChatEnvelope): Ratchet {
    if GateFires(session, envelope) then DhStep(session.ratchet, envelope.header.value.dhPublic).1 else session.ratchet
  }

  function ChatStep(people: People, s: System, e: ChatEvent): System
    requires ChatEnabled(people, s, e)
  {
    match e
    case Says(who, plaintext) =>
      var p := s.Of(who);
      var (result, after) := SessionEncrypt(SessionOf(people, s, who), IdentityOf(people, who), plaintext);
      if result.Failure? then s.With(who, p.(ratchet := after.ratchet))
      else
        var envelope := result.value;
        s.With(who, p.(ratchet := after.ratchet, plaintexts := p.plaintexts + [plaintext],
                       wire := p.wire + [(envelope.payload, envelope.header.value)]))
    case Hears(who, n) =>
      var p := s.Of(who);
      var envelope := EnvelopeOf(people, s, who.Other(), n);
      s.With(who, p.(ratchet := SessionDecrypt(SessionOf(people, s, who), envelope).1.ratchet,
                     seen := p.seen + {n},
                     stepped := p.stepped || GateFires(SessionOf(people, s, who), envelope)))
    case Gets(who, envelope) =>
      var p, session := s.Of(who), SessionOf(people, s, who);
      var r := SessionDecrypt(session, envelope).1.ratchet;
      s.With(who, p.(ratchet := r, stepped := p.stepped || GateFires(session, envelope)))
       .(honest := s.honest && r == Gated(session, envelope))
    case Restarts(who) =>
      var p := s.Of(who);
      s.With(who, p.(ratchet := Restarted(p.ratchet, "presidium-session", [])))
  }

  predicate ValidChat(people: People, s: System, events: seq<ChatEvent>)
    decreases |events|
  {
    events != [] ==> ChatEnabled(people, s, events[0]) && ValidChat(people, ChatStep(people, s, events[0]), events[1..])
  }

  function AfterChat(people: People, s: System, events: seq<ChatEvent>): System
    requires ValidChat(people, s, events)
    decreases |events|
  {
    if events == [] then s else AfterChat(people, ChatStep(people, s, events[0]), events[1..])
  }

  // ---------------------------------------------------------------- refinement

  predicate FirstReceipt(s: System, who: Side) {
    who.Bob? && !s.bob.stepped
  }

  /** The ratchet events a chat event stands for: the gate makes Bob's first receipt a DH step followed
      by a delivery, an envelope that is not accepted does nothing, and every other event maps to one
      ratchet event. */
  function Expand(people: People, s: System, e: ChatEvent): seq<Event> {
    match e
    case Says(who, plaintext) => [Send(who, plaintext)]
    case Hears(who, n) => (if FirstReceipt(s, who) then [TakeDhStep(Bob)] else []) + [Deliver(who, n)]
    case Gets(who, envelope) =>
      if !Accepted(SessionOf(people, s, who), envelope) then []
      else
        (if FirstReceipt(s, who) then [TakeDhStep(Bob)] else [])
          + [Inject(who, envelope.payload, envelope.header.value)]
    case Restarts(who) => [RestartProcess(who)]
  }

  /** States reached by chatting: both ratchets agree and Alice's gate has never fired. */
  predicate Chatting(c: Config, s: System) {
    Agreement(c, s) && !s.alice.stepped
  }

  /** The system once the receiver's gate has been passed. */
  function PastGate(c: Config, s: System, who: Side): System {
    if FirstReceipt(s, who) then Step(c, s, TakeDhStep(Bob)) else s
  }

  /** The gate, on any message of the peer's: Bob's first receipt steps, and nothing else does. */
  lemma GateIsFirstReceipt(c: Config, people: People, s: System, who: Side, envelope: ChatEnvelope)
    requires Chatting(c, s) && Accepted(SessionOf(people, s, who), envelope)
    requires Vouched(s.Of(who.Other()).wire, envelope.payload, envelope.header.value)
    ensures GateFires(SessionOf(people, s, who), envelope) <==> FirstReceipt(s, who)
    ensures PastGate(c, s, who).Of(who).ratchet == Gated(SessionOf(people, s, who), envelope)
    ensures PastGate(c, s, who).Of(who.Other()) == s.Of(who.Other())
  {
    assert SideAgrees(c, s, who) && SideAgrees(c, s, who.Other());
    assert envelope.header.value.dhPublic == PublicOf(KeyOf(c, who.Other()));
  }

  lemma PastGateAgrees(c: Config, s: System, who: Side)
    requires Agreement(c, s)
    ensures Agreement(c, PastGate(c, s, who))
  {
    if FirstReceipt(s, who) {
      DhStepKeeps(c, s, Bob);
    }
  }

  function Lifted(verdict: Result<Bytes, RatchetError>): Result<Bytes, SessionError> {
    match verdict
    case Success(plaintext) => Success(plaintext)
    case Failure(e) => Failure(RatchetFailed(e))
  }

  /** A receipt behind the gate is a decryption by the gated ratchet. */
  lemma ReceiptBehindGate(session: Session, envelope: ChatEnvelope)
    requires Accepted(session, envelope) && session.ratchet.sending.ourKey.Some?
    ensures var (result, r) := DecryptStep(Gated(session, envelope), envelope.payload, envelope.header.value);
      SessionDecrypt(session, envelope) == (Lifted(result), session.(ratchet := r))
  {
  }

  /** The step equality, from what the gate does and nothing else. */
  lemma HearsStep(c: Config, people: People, s: System, who: Side, n: nat)
    requires ChatEnabled(people, s, Hears(who, n)) && s.Of(who).ratchet.sending.ourKey.Some?
    requires n < |PastGate(c, s, who).Of(who.Other()).wire| && PastGate(c, s, who).Of(who.Other()) == s.Of(who.Other())
    requires var envelope := EnvelopeOf(people, s, who.Other(), n);
      && (GateFires(SessionOf(people, s, who), envelope) <==> FirstReceipt(s, who))
      && PastGate(c, s, who).Of(who).ratchet == Gated(SessionOf(people, s, who), envelope)
    ensures ChatStep(people, s, Hears(who, n)) == Step(c, PastGate(c, s, who), Deliver(who, n))
  {
    ReceiptBehindGate(SessionOf(people, s, who), EnvelopeOf(people, s, who.Other(), n));
  }

  lemma HearsRefines(c: Config, people: People, s: System, who: Side, n: nat)
    requires Chatting(c, s) && ChatEnabled(people, s, Hears(who, n))
    ensures Enabled(c, PastGate(c, s, who), Deliver(who, n))
    ensures ChatStep(people, s, Hears(who, n)) == Step(c, PastGate(c, s, who), Deliver(who, n))
  {
    var envelope := EnvelopeOf(people, s, who.Other(), n);
    GateIsFirstReceipt(c, people, s, who, envelope);
    assert KeySlots(c, s, who);
    HearsStep(c, people, s, who, n);
  }

  /** Whatever the peer vouches for is authentic: a key belongs to its own index and to no other. */
  lemma WireIsAuthentic(c: Config, s: System, from: Side, box: Box<Header>, header: Header)
    requires SideAgrees(c, s, from) && Vouched(s.Of(from).wire, box, header)
    ensures Authentic(box, ChainOf(c, from), PublicOf(KeyOf(c, from)), s.Of(from).plaintexts)
  {
    var p := s.Of(from);
    var n :| 0 <= n < |p.wire| && header == p.wire[n].1 && (box == p.wire[n].0 || box.Garbage?);
    forall i: nat | box.Sealed? && box.key == MessageKeyOf(ChainOf(c, from), i)
      ensures i < |p.plaintexts| && box == MessageAt(ChainOf(c, from), PublicOf(KeyOf(c, from)), i, p.plaintexts[i]).0
    {
      ChainsNeverCross(ChainOf(c, from), ChainOf(c, from), ChainKeyInfo, i, n);
    }
  }

  lemma GetsEnabled(c: Config, people: People, s: System, who: Side, envelope: ChatEnvelope)
    requires Chatting(c, s) && Accepted(SessionOf(people, s, who), envelope)
    requires Vouched(s.Of(who.Other()).wire, envelope.payload, envelope.header.value)
    ensures Enabled(c, PastGate(c, s, who), Inject(who, envelope.payload, envelope.header.value))
  {
    GateIsFirstReceipt(c, people, s, who, envelope);
    PastGateAgrees(c, s, who);
    WireIsAuthentic(c, PastGate(c, s, who), who.Other(), envelope.payload, envelope.header.value);
  }

  lemma GetsRefines(c: Config, people: People, s: System, who: Side, envelope: ChatEnvelope)
    requires Chatting(c, s) && ChatEnabled(people, s, Gets(who, envelope))
    requires Accepted(SessionOf(people, s, who), envelope)
    ensures var event := Inject(who, envelope.payload, envelope.header.value);
      ChatStep(people, s, Gets(who, envelope)) == Step(c, PastGate(c, s, who), event)
  {
    GateIsFirstReceipt(c, people, s, who, envelope);
    assert KeySlots(c, s, who);
    ReceiptBehindGate(SessionOf(people, s, who), envelope);
  }

  lemma SaysRefines(people: People, c: Config, s: System, who: Side, plaintext: Bytes)
    ensures ChatStep(people, s, Says(who, plaintext)) == Step(c, s, Send(who, plaintext))
  {
  }

  lemma OneEvent(c: Config, s: System, e: Event)
    requires Enabled(c, s, e)
    ensures ValidRun(c, s, [e]) && After(c, s, [e]) == Step(c, s, e)
  {
    assert ValidRun(c, Step(c, s, e), [e][1..]);
  }

  lemma TwoEvents(c: Config, s: System, e: Event, f: Event)
    requires Enabled(c, s, e) && Enabled(c, Step(c, s, e), f)
    ensures ValidRun(c, s, [e, f]) && After(c, s, [e, f]) == Step(c, Step(c, s, e), f)
  {
    assert [e, f][1..] == [f];
    OneEvent(c, Step(c, s, e), f);
  }

  /** A receipt is the ratchet event `e`, behind the gate. */
  lemma GatedEvent(c: Config, s: System, who: Side, e: Event)
    requires Enabled(c, PastGate(c, s, who), e)
    ensures var events := (if FirstReceipt(s, who) then [TakeDhStep(Bob)] else []) + [e];
      ValidRun(c, s, events) && After(c, s, events) == Step(c, PastGate(c, s, who), e)
  {
    if FirstReceipt(s, who) {
      assert [TakeDhStep(Bob)] + [e] == [TakeDhStep(Bob), e];
      TwoEvents(c, s, TakeDhStep(Bob), e);
    } else {
      assert [] + [e] == [e];
      OneEvent(c, s, e);
    }
  }

  /** Each chat step is the ratchet run it expands to, so that everything proved about two-party runs
      holds of chats. */
  lemma ChatRefinesTwoParty(c: Config, people: People, s: System, e: ChatEvent)
    requires Chatting(c, s) && ChatEnabled(people, s, e)
    ensures ValidRun(c, s, Expand(people, s, e))
    ensures ChatStep(people, s, e) == After(c, s, Expand(people, s, e))
  {
    match e {
      case Says(who, plaintext) =>
        SaysRefines(people, c, s, who, plaintext);
        OneEvent(c, s, Send(who, plaintext));
      case Hears(who, n) =>
        HearsRefines(c, people, s, who, n);
        GatedEvent(c, s, who, Deliver(who, n));
      case Gets(who, envelope) =>
        if Accepted(SessionOf(people, s, who), envelope) {
          GetsEnabled(c, people, s, who, envelope);
          GetsRefines(c, people, s, who, envelope);
          GatedEvent(c, s, who, Inject(who, envelope.payload, envelope.header.value));
        }
      case Restarts(who) => OneEvent(c, s, RestartProcess(who));
    }
  }

  lemma {:induction false} AliceStaysUnstepped(c: Config, s: System, events: seq<Event>)
    requires ValidRun(c, s, events) && TakeDhStep(Alice) !in events
    ensures After(c, s, events).alice.stepped == s.alice.stepped
    decreases |events|
  {
    if events == [] {
    } else {
      AliceStaysUnstepped(c, Step(c, s, events[0]), events[1..]);
    }
  }

  lemma OnlyBobSteps(people: People, s: System, e: ChatEvent)
    ensures TakeDhStep(Alice) !in Expand(people, s, e)
  {
  }

  lemma ChatStepKeeps(c: Config, people: People, s: System, e: ChatEvent)
    requires Chatting(c, s) && ChatEnabled(people, s, e)
    ensures Chatting(c, ChatStep(people, s, e))
  {
    ChatRefinesTwoParty(c, people, s, e);
    RunKeepsAgreement(c, s, Expand(people, s, e));
    OnlyBobSteps(people, s, e);
    AliceStaysUnstepped(c, s, Expand(people, s, e));
  }

  lemma {:induction false} ChatRunKeeps(c: Config, people: People, s: System, events: seq<ChatEvent>)
    requires Chatting(c, s) && ValidChat(people, s, events)
    ensures Chatting(c, AfterChat(people, s, events))
    decreases |events|
  {
    if events == [] {
    } else {
      ChatStepKeeps(c, people, s, events[0]);
      ChatRunKeeps(c, people, ChatStep(people, s, events[0]), events[1..]);
    }
  }

  /** The verdict of a session on any message of its peer's, in any state of a chat. */
  lemma ReceiptVerdict(c: Config, people: People, s: System, who: Side, n: nat)
    requires Chatting(c, s) && n < |s.Of(who.Other()).wire|
    ensures |s.Of(who.Other()).plaintexts| == |s.Of(who.Other()).wire|
    ensures SessionDecrypt(SessionOf(people, s, who), EnvelopeOf(people, s, who.Other(), n)).0
         == Lifted(Reading(PastGate(c, s, who).Of(who).ratchet, n, s.Of(who.Other()).plaintexts[n]))
  {
    var envelope := EnvelopeOf(people, s, who.Other(), n);
    GateIsFirstReceipt(c, people, s, who, envelope);
    PastGateAgrees(c, s, who);
    AgreedVerdict(c, PastGate(c, s, who), who, n);
    assert KeySlots(c, s, who);
    ReceiptBehindGate(SessionOf(people, s, who), envelope);
  }

  // ---------------------------------------------------------------- results over whole chats

  /** Delivery between chat sessions. Over every run of sends, deliveries in any order, replays, forgeries
      and restarts, for any message the peer has sent: the responder reads exactly the plaintext the
      initiator wrote whenever its store or its reach allows, with no DH step but the gate's own; the
      initiator, whose peer keeps its key, is refused every reply. */
  lemma ChatDelivery(c: Config, people: People, events: seq<ChatEvent>, who: Side, n: nat)
    requires ValidChat(people, Initial(c), events)
    requires n < |AfterChat(people, Initial(c), events).Of(who.Other()).wire|
    ensures var s := AfterChat(people, Initial(c), events);
      var result := SessionDecrypt(SessionOf(people, s, who), EnvelopeOf(people, s, who.Other(), n)).0;
      && |s.Of(who.Other()).plaintexts| == |s.Of(who.Other()).wire|
      && result == if who.Alice? then Failure(RatchetFailed(NoReceivingChain))
                   else if s.bob.stepped then Lifted(Reading(s.bob.ratchet, n, s.alice.plaintexts[n]))
                   else if n <= MAX_SKIP_MESSAGES then Success(s.alice.plaintexts[n])
                   else Failure(RatchetFailed(TooManySkipped))
  {
    InitialAgrees(c);
    ChatRunKeeps(c, people, Initial(c), events);
    var s := AfterChat(people, Initial(c), events);
    ReceiptVerdict(c, people, s, who, n);
    AgreedVerdict(c, s, who, n);
  }

  /** Safety between chat sessions. Over every such run, whatever envelope is handed to a session next: if
      the session accepts it, its payload under its header is what the peer sent at that index, and the
      plaintext is the one the peer wrote there. */
  lemma ChatAcceptedWasSent(c: Config, people: People, events: seq<ChatEvent>, who: Side, envelope: ChatEnvelope)
    requires ValidChat(people, Initial(c), events)
    requires ChatEnabled(people, AfterChat(people, Initial(c), events), Gets(who, envelope))
    ensures var s := AfterChat(people, Initial(c), events); var sender := s.Of(who.Other());
      var result := SessionDecrypt(SessionOf(people, s, who), envelope).0;
      result.Success? ==>
        && envelope.header.Some? && envelope.header.value.messageNumber < |sender.wire| == |sender.plaintexts|
        && sender.wire[envelope.header.value.messageNumber] == (envelope.payload, envelope.header.value)
        && result.value == sender.plaintexts[envelope.header.value.messageNumber]
  {
    InitialAgrees(c);
    ChatRunKeeps(c, people, Initial(c), events);
    var s := AfterChat(people, Initial(c), events);
    if Accepted(SessionOf(people, s, who), envelope) {
      GateIsFirstReceipt(c, people, s, who, envelope);
      PastGateAgrees(c, s, who);
      GetsEnabled(c, people, s, who, envelope);
      assert KeySlots(c, s, who);
      ReceiptBehindGate(SessionOf(people, s, who), envelope);
      AgreedAcceptance(c, PastGate(c, s, who), who, envelope.payload, envelope.header.value);
    }
  }
}
