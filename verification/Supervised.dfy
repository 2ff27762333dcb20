/** Two nodes that are started again whenever an error stops them, over a network that loses, reorders,
    replays and forges: what is typed at one node is read at the other. */
module Supervised {
  import opened Results
  import opened Terms
  import opened Ratchet
  import opened SkipLoop
  import opened Channel
  import opened Snapshot
  import opened Pqxdh
  import opened Session
  import opened Group
  import opened Node
  import opened NodeRestart
  import opened TwoParty
  import opened Conversation

  // ---------------------------------------------------------------- the system

  /** A line that was typed and the envelope it went out in. */
  datatype Line = Line(envelope: ChatEnvelope, text: Bytes)

  /** Both nodes, what each has sent, and the numbers of the initiator's messages that the responder has read. */
  datatype Pair = Pair(alice: App, bob: App, fromAlice: seq<Line>, fromBob: seq<Line>, read: set<nat>) {
    function Of(side: Side): App {
      if side.Alice? then alice else bob
    }

    function From(side: Side): seq<Line> {
      if side.Alice? then fromAlice else fromBob
    }

    function With(side: Side, app: App): Pair {
      if side.Alice? then this.(alice := app) else this.(bob := app)
    }
  }

  datatype PairEvent = Say(who: Side, text: Bytes) | Get(who: Side, envelope: ChatEnvelope)

  /** A node after a handler: an error stops it, and it is started again. */
  function Running(failed: bool, app: App): App {
    if !failed then app
    else
      match RestartNode(app)
      case Failure(_) => app
      case Success(again) => again
  }

  function Logged(out: Result<seq<Wire>, HandshakeError>, text: Bytes): seq<Line> {
    if out.Success? && |out.value| == 1 && out.value[0].Chat? then [Line(out.value[0].envelope, text)] else []
  }

  predicate VouchedLine(lines: seq<Line>, box: Box<Header>, header: Header) {
    exists n :: 0 <= n < |lines| && lines[n].envelope.header == Some(header)
      && (box == lines[n].envelope.payload || box.Garbage?)
  }

  /** The network may hand over anything, except that it cannot forge the other node's signature. */
  predicate PairEnabled(p: Pair, e: PairEvent) {
    e.Get? && e.envelope.header.Some?
    && e.envelope.signature == SignedBy(Public(p.Of(e.who.Other()).identity), (e.envelope.header, e.envelope.payload))
    ==> VouchedLine(p.From(e.who.Other()), e.envelope.payload, e.envelope.header.value)
  }

  function PairStep(p: Pair, e: PairEvent): Pair {
    match e
    case Say(who, text) =>
      var (out, app) := HandleLine(p.Of(who), text);
      var q := p.With(who, Running(out.Failure?, app));
      if who.Alice? then q.(fromAlice := p.fromAlice + Logged(out, text))
      else q.(fromBob := p.fromBob + Logged(out, text))
    case Get(who, envelope) =>
      var (result, app) := OnChat(p.Of(who), envelope);
      var q := p.With(who, Running(result.Failure?, app));
      if who.Bob? && result.Success? && envelope.header.Some?
      then q.(read := p.read + {envelope.header.value.messageNumber}) else q
  }

  predicate ValidPairRun(p: Pair, events: seq<PairEvent>)
    decreases |events|
  {
    events != [] ==> PairEnabled(p, events[0]) && ValidPairRun(PairStep(p, events[0]), events[1..])
  }

  function AfterPair(p: Pair, events: seq<PairEvent>): Pair
    requires ValidPairRun(p, events)
    decreases |events|
  {
    if events == [] then p else AfterPair(PairStep(p, events[0]), events[1..])
  }

  // ---------------------------------------------------------------- the mirror

  /** A node holds, live or in its store, the session that a side of the chat has, and no other. */
  predicate Holds(people: People, s: System, side: Side, app: App) {
    var chat := SessionOf(people, s, side);
    && app.identity == IdentityOf(people, side)
    && app.stored == map[people.id := Persisted(chat)]
    && (app.session.Some? ==> app.session.value == chat)
    && (if side.Alice? then app.initiator.Some? && app.session.Some? && app.deviceId == people.id
        else app.initiator.None?)
  }

  predicate Logs(people: People, s: System, side: Side, lines: seq<Line>) {
    var p := s.Of(side);
    && |lines| == |p.wire| == |p.plaintexts|
    && forall i :: 0 <= i < |lines| ==>
         lines[i].text == p.plaintexts[i] && lines[i].envelope == EnvelopeOf(people, s, side, i)
  }

  /** The responder's store lies below its index, and so does all it has read. */
  predicate ReadBelow(r: Ratchet, read: set<nat>) {
    Orderly(r) && forall m :: m in read ==> m < Index(r)
  }

  predicate Plain(r: Ratchet) {
    r.sessionId == "presidium-session" && r.associatedData == []
  }

  /** The people of the chat are who their keys say they are. */
  predicate Settled(people: People) {
    && people.aliceKeys.peerIdentity == Public(people.bob) && people.bobKeys.peerIdentity == Public(people.alice)
  }

  predicate Mirrors(c: Config, people: People, s: System, p: Pair) {
    && Chatting(c, s) && s.honest && Settled(people)
    && Holds(people, s, Alice, p.alice) && Holds(people, s, Bob, p.bob)
    && Logs(people, s, Alice, p.fromAlice) && Logs(people, s, Bob, p.fromBob)
    && s.bob.seen == p.read && ReadBelow(s.bob.ratchet, p.read) && (s.bob.stepped ==> p.read != {})
    && Plain(s.alice.ratchet) && Plain(s.bob.ratchet)
  }

  // ---------------------------------------------------------------- one node

  /** The session a node brings to a message of its conversation. */
  lemma SessionIsHeld(people: People, s: System, side: Side, app: App)
    requires Holds(people, s, side, app) && Settled(people) && Plain(s.Of(side).ratchet)
    ensures SessionFor(app, people.id) == Success(SessionOf(people, s, side))
  {
    var chat := SessionOf(people, s, side);
    ResumeUndoesPersist(chat, Some(Persisted(chat)), people.id);
  }

  /** A message of another conversation meets the live session, or none. */
  lemma OtherConversation(people: People, s: System, side: Side, app: App, id: string)
    requires Holds(people, s, side, app) && id != people.id
    ensures SessionFor(app, id) ==
      if app.session.Some? then Success(SessionOf(people, s, side)) else Failure(NoSession)
  {
  }

  /** A node that was stopped comes back with what it had persisted. */
  lemma ComesBack(people: People, s: System, side: Side, app: App, stopped: App)
    requires Holds(people, s, side, app) && Settled(people) && Plain(s.Of(side).ratchet)
    requires stopped == app.(session := stopped.session)
    ensures Holds(people, s, side, Running(true, stopped))
  {
    var chat := SessionOf(people, s, side);
    ResumeUndoesPersist(chat, Some(Persisted(chat)), people.id);
  }

  lemma SaveHolds(people: People, s: System, s': System, side: Side, app: App)
    requires Holds(people, s, side, app)
    ensures Holds(people, s', side, Save(app, SessionOf(people, s', side)))
  {
  }

  // ---------------------------------------------------------------- typing

  /** A line typed at a node with a session is a step of the chat. */
  lemma SayIsSays(people: People, s: System, side: Side, app: App, text: Bytes)
    requires Holds(people, s, side, app) && app.session.Some?
    ensures var s' := ChatStep(people, s, Says(side, text));
      var (out, app') := HandleLine(app, text);
      if EncryptStep(s.Of(side).ratchet, text).0.Failure? then out.Failure? && app' == app.(session := app'.session)
      else
        && Holds(people, s', side, app')
        && |s'.Of(side).wire| == |s.Of(side).wire| + 1
        && out == Success([Chat(EnvelopeOf(people, s', side, |s.Of(side).wire|))])
  {
    SaveHolds(people, s, ChatStep(people, s, Says(side, text)), side, app);
  }

  /** A step of one side does not touch what the other side holds or has sent. */
  lemma OtherSideHolds(people: People, s: System, s': System, side: Side, app: App, lines: seq<Line>)
    requires s'.Of(side) == s.Of(side) && Holds(people, s, side, app) && Logs(people, s, side, lines)
    ensures Holds(people, s', side, app) && Logs(people, s', side, lines)
  {
    assert forall i :: 0 <= i < |lines| ==> EnvelopeOf(people, s', side, i) == EnvelopeOf(people, s, side, i);
  }

  lemma SaysLogs(people: People, s: System, side: Side, lines: seq<Line>, text: Bytes)
    requires Logs(people, s, side, lines) && EncryptStep(s.Of(side).ratchet, text).0.Success?
    ensures var s' := ChatStep(people, s, Says(side, text));
      && |s'.Of(side).wire| == |s.Of(side).wire| + 1
      && Logs(people, s', side, lines + [Line(EnvelopeOf(people, s', side, |s.Of(side).wire|), text)])
  {
    var s' := ChatStep(people, s, Says(side, text));
    assert forall i :: 0 <= i < |lines| ==> EnvelopeOf(people, s', side, i) == EnvelopeOf(people, s, side, i);
  }

  lemma SaysFrame(people: People, s: System, side: Side, text: Bytes)
    requires EncryptStep(s.Of(side).ratchet, text).0.Success?
    ensures var s' := ChatStep(people, s, Says(side, text));
      && s'.Of(side.Other()) == s.Of(side.Other()) && s'.honest == s.honest
      && s'.bob.seen == s.bob.seen && s'.bob.stepped == s.bob.stepped
      && s'.Of(side).ratchet.receiving == s.Of(side).ratchet.receiving
      && (Plain(s.Of(side).ratchet) ==> Plain(s'.Of(side).ratchet))
  {
  }

  lemma SayStopped(c: Config, people: People, s: System, p: Pair, who: Side, text: Bytes)
    requires Mirrors(c, people, s, p) && p.Of(who).session.Some? && EncryptStep(s.Of(who).ratchet, text).0.Failure?
    ensures Mirrors(c, people, s, PairStep(p, Say(who, text)))
  {
    SayIsSays(people, s, who, p.Of(who), text);
    ComesBack(people, s, who, p.Of(who), HandleLine(p.Of(who), text).1);
  }

  /** The pair after a line that goes out. */
  lemma SaySteps(people: People, s: System, p: Pair, who: Side, text: Bytes)
    requires Holds(people, s, who, p.Of(who)) && p.Of(who).session.Some? && Logs(people, s, who, p.From(who))
    requires EncryptStep(s.Of(who).ratchet, text).0.Success?
    ensures var s' := ChatStep(people, s, Says(who, text)); var q := PairStep(p, Say(who, text));
      && Holds(people, s', who, q.Of(who)) && Logs(people, s', who, q.From(who))
      && q.Of(who.Other()) == p.Of(who.Other()) && q.From(who.Other()) == p.From(who.Other()) && q.read == p.read
  {
    SayIsSays(people, s, who, p.Of(who), text);
    SaysLogs(people, s, who, p.From(who), text);
  }

  lemma SaySent(c: Config, people: People, s: System, p: Pair, who: Side, text: Bytes)
    requires Mirrors(c, people, s, p) && p.Of(who).session.Some? && EncryptStep(s.Of(who).ratchet, text).0.Success?
    ensures Mirrors(c, people, ChatStep(people, s, Says(who, text)), PairStep(p, Say(who, text)))
  {
    var s' := ChatStep(people, s, Says(who, text));
    SaySteps(people, s, p, who, text);
    SaysFrame(people, s, who, text);
    ChatStepKeeps(c, people, s, Says(who, text));
    OtherSideHolds(people, s, s', who.Other(), p.Of(who.Other()), p.From(who.Other()));
  }

  lemma SayKeeps(c: Config, people: People, s: System, p: Pair, who: Side, text: Bytes) returns (s': System)
    requires Mirrors(c, people, s, p)
    ensures Mirrors(c, people, s', PairStep(p, Say(who, text)))
  {
    if p.Of(who).session.None? {
      s' := s;
      assert PairStep(p, Say(who, text)) == p;
    } else if EncryptStep(s.Of(who).ratchet, text).0.Failure? {
      s' := s;
      SayStopped(c, people, s, p, who, text);
    } else {
      s' := ChatStep(people, s, Says(who, text));
      SaySent(c, people, s, p, who, text);
    }
  }

  // ---------------------------------------------------------------- receiving

  /** A refused message leaves a node where it was. */
  lemma RefusedKeeps(c: Config, people: People, s: System, p: Pair, who: Side, e: ChatEnvelope)
    requires Mirrors(c, people, s, p) && OnChat(p.Of(who), e).0.Failure?
    ensures Mirrors(c, people, s, PairStep(p, Get(who, e)))
  {
    var app := p.Of(who);
    var stopped := OnChat(app, e).1;
    assert stopped == app.(session := stopped.session);
    ComesBack(people, s, who, app, stopped);
  }

  lemma VouchedAlike(people: People, s: System, side: Side, lines: seq<Line>, box: Box<Header>, header: Header)
    requires Logs(people, s, side, lines)
    ensures VouchedLine(lines, box, header) <==> Vouched(s.Of(side).wire, box, header)
  {
    var wire := s.Of(side).wire;
    assert forall i :: 0 <= i < |lines| ==>
      lines[i].envelope.header == Some(wire[i].1) && lines[i].envelope.payload == wire[i].0;
    if VouchedLine(lines, box, header) {
      var n :| 0 <= n < |lines| && lines[n].envelope.header == Some(header)
        && (box == lines[n].envelope.payload || box.Garbage?);
      assert header == wire[n].1;
    }
    if Vouched(wire, box, header) {
      var n :| 0 <= n < |wire| && header == wire[n].1 && (box == wire[n].0 || box.Garbage?);
      assert lines[n].envelope.header == Some(header);
    }
  }

  /** The session that answers a message is the one held, if any answers. */
  lemma AnsweredByHeld(people: People, s: System, side: Side, app: App, e: ChatEnvelope)
    requires Holds(people, s, side, app) && Settled(people) && Plain(s.Of(side).ratchet) && OnChat(app, e).0.Success?
    ensures var (result, after) := SessionDecrypt(SessionOf(people, s, side), e);
      result.Success? && OnChat(app, e) == (Success(result.value), Save(app, after))
  {
    SessionIsHeld(people, s, side, app);
    if e.conversationId != people.id {
      OtherConversation(people, s, side, app, e.conversationId);
    }
  }

  lemma GetIsGets(people: People, s: System, p: Pair, who: Side, e: ChatEnvelope)
    requires PairEnabled(p, Get(who, e)) && Logs(people, s, who.Other(), p.From(who.Other()))
    requires p.Of(who.Other()).identity == IdentityOf(people, who.Other())
    ensures ChatEnabled(people, s, Gets(who, e))
  {
    if e.header.Some? {
      VouchedAlike(people, s, who.Other(), p.From(who.Other()), e.payload, e.header.value);
    }
  }

  /** The initiator reads nothing. */
  lemma AliceRefuses(c: Config, people: People, s: System, e: ChatEnvelope)
    requires Chatting(c, s) && ChatEnabled(people, s, Gets(Alice, e))
    ensures SessionDecrypt(SessionOf(people, s, Alice), e).0.Failure?
  {
    if Accepted(SessionOf(people, s, Alice), e) {
      GateIsFirstReceipt(c, people, s, Alice, e);
      assert SideAgrees(c, s, Alice);
      ReceiptBehindGate(SessionOf(people, s, Alice), e);
    }
  }

  /** What the responder accepts is a message the initiator sent, under whatever conversation id. */
  lemma BobAccepts(c: Config, people: People, s: System, e: ChatEnvelope) returns (m: nat)
    requires Chatting(c, s) && ChatEnabled(people, s, Gets(Bob, e))
    requires SessionDecrypt(SessionOf(people, s, Bob), e).0.Success?
    ensures e.header.Some? && m == e.header.value.messageNumber && m < |s.alice.wire| == |s.alice.plaintexts|
    ensures (e.payload, e.header.value) == s.alice.wire[m]
    ensures SessionDecrypt(SessionOf(people, s, Bob), e)
         == SessionDecrypt(SessionOf(people, s, Bob), EnvelopeOf(people, s, Alice, m))
    ensures SessionDecrypt(SessionOf(people, s, Bob), e).0 == Success(s.alice.plaintexts[m])
  {
    m := e.header.value.messageNumber;
    GateIsFirstReceipt(c, people, s, Bob, e);
    PastGateAgrees(c, s, Bob);
    GetsEnabled(c, people, s, Bob, e);
    assert KeySlots(c, s, Bob);
    ReceiptBehindGate(SessionOf(people, s, Bob), e);
    AgreedAcceptance(c, PastGate(c, s, Bob), Bob, e.payload, e.header.value);
    ConversationIdIsIgnored(SessionOf(people, s, Bob), e, EnvelopeOf(people, s, Alice, m));
  }

  lemma ConversationIdIsIgnored(chat: Session, e: ChatEnvelope, f: ChatEnvelope)
    requires e.header == f.header && e.payload == f.payload && Accepted(chat, e) && Accepted(chat, f)
    ensures SessionDecrypt(chat, e) == SessionDecrypt(chat, f)
  {
  }

  /** Reading a message again takes its stored key and changes nothing. */
  lemma ReadAgain(c: Config, people: People, s: System, m: nat)
    requires Chatting(c, s) && ReadBelow(s.bob.ratchet, s.bob.seen) && m in s.bob.seen && m < |s.alice.wire|
    requires SessionDecrypt(SessionOf(people, s, Bob), EnvelopeOf(people, s, Alice, m)).0.Success?
    ensures SessionDecrypt(SessionOf(people, s, Bob), EnvelopeOf(people, s, Alice, m)).1 == SessionOf(people, s, Bob)
  {
    var e := EnvelopeOf(people, s, Alice, m);
    GateIsFirstReceipt(c, people, s, Bob, e);
    AgreedVerdict(c, s, Bob, m);
    assert SideAgrees(c, s, Bob) && SideAgrees(c, s, Alice);
    ReceiptBehindGate(SessionOf(people, s, Bob), e);
    assert s.alice.wire[m].1.messageNumber == m;
  }

  /** A successful decryption keeps the store below the index, and puts what it read there too. */
  lemma DecryptReadsBelow(r: Ratchet, box: Box<Header>, header: Header, read: set<nat>)
    requires ReadBelow(r, read) && DecryptStep(r, box, header).0.Success?
    ensures ReadBelow(DecryptStep(r, box, header).1, read + {header.messageNumber})
  {
    var op := Decrypt(box, header);
    assert Apply(r, op) == (Decrypted(DecryptStep(r, box, header).0), DecryptStep(r, box, header).1);
    if r.receiving.chainKey.Some? {
      StepStaysOrderly(r, op);
    }
  }

  lemma FirstReading(c: Config, people: People, s: System, m: nat)
    requires Chatting(c, s) && s.honest && m < |s.alice.wire| && m !in s.bob.seen
    requires ReadBelow(s.bob.ratchet, s.bob.seen) && Plain(s.bob.ratchet)
    requires SessionDecrypt(SessionOf(people, s, Bob), EnvelopeOf(people, s, Alice, m)).0.Success?
    ensures ChatEnabled(people, s, Hears(Bob, m))
    ensures var s' := ChatStep(people, s, Hears(Bob, m));
      && SessionOf(people, s', Bob) == SessionDecrypt(SessionOf(people, s, Bob), EnvelopeOf(people, s, Alice, m)).1
      && ReadBelow(s'.bob.ratchet, s.bob.seen + {m}) && Plain(s'.bob.ratchet)
      && s'.alice == s.alice && s'.honest && s'.bob.seen == s.bob.seen + {m}
      && s'.bob.wire == s.bob.wire && s'.bob.plaintexts == s.bob.plaintexts
  {
    var e, chat := EnvelopeOf(people, s, Alice, m), SessionOf(people, s, Bob);
    assert SideAgrees(c, s, Bob) && SideAgrees(c, s, Alice);
    ReceiptBehindGate(chat, e);
    var gated := Gated(chat, e);
    GateKeepsBelow(c, people, s, e);
    DecryptReadsBelow(gated, e.payload, e.header.value, s.bob.seen);
    assert e.header.value.messageNumber == m;
  }

  lemma GateKeepsBelow(c: Config, people: People, s: System, e: ChatEnvelope)
    requires Chatting(c, s) && ReadBelow(s.bob.ratchet, s.bob.seen)
    requires Accepted(SessionOf(people, s, Bob), e)
    requires Vouched(s.alice.wire, e.payload, e.header.value)
    ensures ReadBelow(Gated(SessionOf(people, s, Bob), e), s.bob.seen)
  {
    GateIsFirstReceipt(c, people, s, Bob, e);
    assert SideAgrees(c, s, Bob);
  }

  /** The pair after a message that was read. */
  lemma GetSteps(people: People, s: System, s': System, p: Pair, e: ChatEnvelope)
    requires Holds(people, s, Bob, p.bob) && e.header.Some?
    requires OnChat(p.bob, e).0.Success? && OnChat(p.bob, e).1 == Save(p.bob, SessionOf(people, s', Bob))
    ensures var q := PairStep(p, Get(Bob, e));
      && Holds(people, s', Bob, q.bob) && q.alice == p.alice && q.fromAlice == p.fromAlice && q.fromBob == p.fromBob
      && q.read == p.read + {e.header.value.messageNumber}
  {
    SaveHolds(people, s, s', Bob, p.bob);
  }

  lemma LogsAlike(people: People, s: System, s': System, side: Side, lines: seq<Line>)
    requires Logs(people, s, side, lines)
    requires s'.Of(side).wire == s.Of(side).wire && s'.Of(side).plaintexts == s.Of(side).plaintexts
    ensures Logs(people, s', side, lines)
  {
    assert forall i :: 0 <= i < |lines| ==> EnvelopeOf(people, s', side, i) == EnvelopeOf(people, s, side, i);
  }

  lemma ReadAgainKeeps(c: Config, people: People, s: System, p: Pair, e: ChatEnvelope, m: nat)
    requires Mirrors(c, people, s, p) && e.header.Some? && m == e.header.value.messageNumber && m in s.bob.seen
    requires OnChat(p.bob, e).0.Success? && OnChat(p.bob, e).1 == Save(p.bob, SessionOf(people, s, Bob))
    ensures Mirrors(c, people, s, PairStep(p, Get(Bob, e)))
  {
    GetSteps(people, s, s, p, e);
    assert p.read + {m} == p.read;
  }

  lemma FirstReadKeeps(c: Config, people: People, s: System, p: Pair, e: ChatEnvelope, m: nat)
    requires Mirrors(c, people, s, p) && e.header.Some? && m == e.header.value.messageNumber && m !in s.bob.seen
    requires m < |s.alice.wire| && OnChat(p.bob, e).0.Success?
    requires var (result, after) := SessionDecrypt(SessionOf(people, s, Bob), EnvelopeOf(people, s, Alice, m));
      result.Success? && OnChat(p.bob, e).1 == Save(p.bob, after)
    ensures ChatEnabled(people, s, Hears(Bob, m))
    ensures Mirrors(c, people, ChatStep(people, s, Hears(Bob, m)), PairStep(p, Get(Bob, e)))
  {
    var s' := ChatStep(people, s, Hears(Bob, m));
    FirstReading(c, people, s, m);
    ChatStepKeeps(c, people, s, Hears(Bob, m));
    GetSteps(people, s, s', p, e);
    OtherSideHolds(people, s, s', Alice, p.alice, p.fromAlice);
    LogsAlike(people, s, s', Bob, p.fromBob);
  }

  lemma AcceptedKeeps(c: Config, people: People, s: System, p: Pair, e: ChatEnvelope) returns (s': System)
    requires Mirrors(c, people, s, p) && PairEnabled(p, Get(Bob, e)) && OnChat(p.bob, e).0.Success?
    ensures Mirrors(c, people, s', PairStep(p, Get(Bob, e)))
  {
    GetIsGets(people, s, p, Bob, e);
    AnsweredByHeld(people, s, Bob, p.bob, e);
    var m := BobAccepts(c, people, s, e);
    if m in s.bob.seen {
      s' := s;
      ReadAgain(c, people, s, m);
      ReadAgainKeeps(c, people, s, p, e, m);
    } else {
      FirstReadKeeps(c, people, s, p, e, m);
      s' := ChatStep(people, s, Hears(Bob, m));
    }
  }

  lemma GetKeeps(c: Config, people: People, s: System, p: Pair, who: Side, e: ChatEnvelope) returns (s': System)
    requires Mirrors(c, people, s, p) && PairEnabled(p, Get(who, e))
    ensures Mirrors(c, people, s', PairStep(p, Get(who, e)))
  {
    if OnChat(p.Of(who), e).0.Failure? {
      s' := s;
      RefusedKeeps(c, people, s, p, who, e);
    } else if who.Bob? {
      s' := AcceptedKeeps(c, people, s, p, e);
    } else {
      s' := s;
      GetIsGets(people, s, p, Alice, e);
      AnsweredByHeld(people, s, Alice, p.alice, e);
      AliceRefuses(c, people, s, e);
      assert false;
    }
  }

  lemma {:induction false} PairRunMirrors(c: Config, people: People, s: System, p: Pair, events: seq<PairEvent>)
      returns (s': System)
    requires Mirrors(c, people, s, p) && ValidPairRun(p, events)
    ensures Mirrors(c, people, s', AfterPair(p, events))
    decreases |events|
  {
    if events == [] {
      s' := s;
    } else {
      match events[0] {
        case Say(who, text) => s' := SayKeeps(c, people, s, p, who, text);
        case Get(who, e) => s' := GetKeeps(c, people, s, p, who, e);
      }
      s' := PairRunMirrors(c, people, s', PairStep(p, events[0]), events[1..]);
    }
  }

  // ---------------------------------------------------------------- results

  /** Is message `n` within the responder's reach? */
  predicate Reaches(app: App, id: string, n: nat) {
    && SessionFor(app, id).Success?
    && var r := SessionFor(app, id).value.ratchet;
    if r.receiving.chainKey.Some? then WithinReach(r.receiving, n) else n <= MAX_SKIP_MESSAGES
  }

  /** The responder's verdict on a message it has not read. */
  lemma UnreadVerdict(c: Config, people: People, s: System, p: Pair, n: nat)
    requires Mirrors(c, people, s, p) && n < |p.fromAlice| && n !in p.read
    ensures var line := p.fromAlice[n];
      && OnChat(p.bob, line.envelope).0 ==
           (if Reaches(p.bob, people.id, n) then Success(line.text)
            else Failure(SessionFailed(RatchetFailed(TooManySkipped))))
      && (|p.fromAlice| <= MAX_SKIP_MESSAGES + 1 ==> Reaches(p.bob, people.id, n))
  {
    SessionIsHeld(people, s, Bob, p.bob);
    ReceiptVerdict(c, people, s, Bob, n);
    assert SideAgrees(c, s, Bob) && SideAgrees(c, s, Alice);
    AgreedVerdict(c, s, Bob, n);
    if FirstReceipt(s, Bob) {
      assert PastGate(c, s, Bob).bob.ratchet.receiving.skipped == [];
    }
  }
}
