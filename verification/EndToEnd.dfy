/** From first contact to typed lines: the handshake of two nodes, then whatever they type, with the nodes
    started again after every error. */
module EndToEnd {
  import opened Results
  import opened Terms
  import opened Ratchet
  import opened SkipLoop
  import opened Channel
  import opened Pqxdh
  import opened Session
  import opened Group
  import opened Node
  import opened NodeRestart
  import opened TwoParty
  import opened Conversation
  import opened Handshake
  import opened Supervised

  // ---------------------------------------------------------------- what the handshake has stored

  /** Directories that hold nothing but the conversation named by Alice's device. */
  predicate OneConversation(s: Net) {
    s.alice.stored.Keys <= {s.alice.deviceId} && s.bob.stored.Keys <= {s.alice.deviceId}
  }

  /** Every session has the conversation id of Alice's device, and is persisted under it. */
  predicate StoredAlike(s: Net) {
    && OneConversation(s) && UpToDate(s.alice) && UpToDate(s.bob)
    && (s.alice.session.Some? ==> s.alice.session.value.conversationId == s.alice.deviceId)
    && (s.bob.session.Some? ==> s.bob.session.value.conversationId == s.alice.deviceId)
  }

  function ConversationOf(app: App): set<string> {
    if app.session.Some? then {app.session.value.conversationId} else {}
  }

  /** A handler stores nothing but the session it leaves. */
  lemma HandlerStores(app: App, wire: Wire, rnd: Randomness)
    ensures var app' := HandleDirect(app, wire, rnd).1;
      app'.stored.Keys <= app.stored.Keys + ConversationOf(app')
  {
  }

  lemma PhaseNamesConversation(s: Net)
    requires Phases(s)
    ensures s.alice.session.Some? ==> s.alice.session.value.conversationId == s.alice.deviceId
    ensures s.bob.session.Some? ==> s.bob.session.value.conversationId == s.alice.deviceId
  {
    if Established(s) {
      var secret, own, peer :| EstablishedFrom(s, secret, own, peer);
      SessionsAgree(s, secret, own, peer);
    }
  }

  lemma DeliveryStoresAlike(s: Net, atAlice: bool, i: nat, rnd: Randomness)
    requires NetEnabled(s, DeliverWire(atAlice, i, rnd)) && StoredAlike(s)
    requires !NetStep(s, DeliverWire(atAlice, i, rnd)).failed
    ensures var t := NetStep(s, DeliverWire(atAlice, i, rnd));
      && UpToDate(t.alice) && UpToDate(t.bob)
      && t.alice.stored.Keys <= {s.alice.deviceId} + ConversationOf(t.alice)
      && t.bob.stored.Keys <= {s.alice.deviceId} + ConversationOf(t.bob)
  {
    if atAlice {
      HandlerStores(s.alice, s.toAlice[i], rnd);
      DirectIsUpToDate(s.alice, s.toAlice[i], rnd);
    } else {
      HandlerStores(s.bob, s.toBob[i], rnd);
      DirectIsUpToDate(s.bob, s.toBob[i], rnd);
    }
  }

  lemma StepStoresAlike(s: Net, e: NetEvent)
    requires NetEnabled(s, e) && StoredAlike(s) && Phases(NetStep(s, e))
    ensures StoredAlike(NetStep(s, e))
  {
    PhaseNamesConversation(NetStep(s, e));
    NetStepFrame(s, e);
    if e.DeliverWire? {
      DeliveryStoresAlike(s, e.atAlice, e.i, e.rnd);
    }
  }

  lemma {:induction false} RunStoresAlike(s: Net, events: seq<NetEvent>)
    requires Phases(s) && ValidNetRun(s, events) && StoredAlike(s)
    ensures StoredAlike(AfterNet(s, events))
    decreases |events|
  {
    if events == [] {
    } else {
      NetStepKeeps(s, events[0]);
      StepStoresAlike(s, events[0]);
      RunStoresAlike(NetStep(s, events[0]), events[1..]);
    }
  }

  // ---------------------------------------------------------------- where the chat begins

  /** The two nodes after a handshake: Alice has sent the greeting, and Bob has read it unless his ratchet is
      still as it was built. */
  function Met(t: Net): Pair
    requires t.alice.session.Some? && t.bob.session.Some?
  {
    var a, b := t.alice.session.value, t.bob.session.value;
    var start := Initial(ConfigOf(a, b));
    var sent := SessionEncrypt(a.(ratchet := start.alice.ratchet), t.alice.identity, t.alice.greeting).0;
    Pair(t.alice, t.bob,
         if sent.Success? then [Line(sent.value, t.alice.greeting)] else [], [],
         if b.ratchet == start.bob.ratchet then {} else {0})
  }

  lemma OpeningMirrors(t: Net, a: Session, b: Session) returns (met: System)
    requires t.alice.session == Some(a) && t.bob.session == Some(b) && StoredAlike(t)
    requires t.alice.initiator.Some? && t.bob.initiator.None?
    requires a.isInitiator && !b.isInitiator && a.conversationId == b.conversationId
    requires a.peerIdentity == Public(t.bob.identity) && b.peerIdentity == Public(t.alice.identity)
    requires a.ratchet == EncryptStep(Initial(ConfigOf(a, b)).alice.ratchet, t.alice.greeting).1
    requires BobStands(a, b, t.alice.identity, t.alice.greeting)
    ensures Mirrors(ConfigOf(a, b), PeopleOf(t, a, b), met, Met(t))
  {
    var c, people, start := ConfigOf(a, b), PeopleOf(t, a, b), Initial(ConfigOf(a, b));
    var opening := Opening(a, b, t.alice.greeting);
    OpeningReached(t, a, b);
    met := AfterChat(people, start, opening);
    InitialAgrees(c);
    ChatRunKeeps(c, people, start, opening);
    OpeningState(t, a, b);
    HeldAfterHandshake(people, met, Alice, t.alice, a);
    HeldAfterHandshake(people, met, Bob, t.bob, b);
  }

  lemma HeldAfterHandshake(people: People, s: System, side: Side, app: App, chat: Session)
    requires app.session == Some(chat) && chat == SessionOf(people, s, side) && app.identity == IdentityOf(people, side)
    requires app.stored.Keys <= {people.id} && UpToDate(app)
    requires if side.Alice? then app.initiator.Some? && app.deviceId == people.id else app.initiator.None?
    ensures Holds(people, s, side, app)
  {
    assert app.stored == map[people.id := Persisted(chat)];
  }

  /** The chat after its opening: one message of Alice's, none of Bob's. */
  lemma OpeningState(t: Net, a: Session, b: Session)
    requires t.alice.session == Some(a) && t.bob.session == Some(b)
    requires a.isInitiator && !b.isInitiator && a.conversationId == b.conversationId
    requires a.peerIdentity == Public(t.bob.identity) && b.peerIdentity == Public(t.alice.identity)
    requires a.ratchet == EncryptStep(Initial(ConfigOf(a, b)).alice.ratchet, t.alice.greeting).1
    requires BobStands(a, b, t.alice.identity, t.alice.greeting)
    ensures var people, start := PeopleOf(t, a, b), Initial(ConfigOf(a, b));
      var opening := Opening(a, b, t.alice.greeting);
      && ValidChat(people, start, opening)
      && var met := AfterChat(people, start, opening);
      && met.honest && met.bob.seen == Met(t).read && (met.bob.stepped ==> Met(t).read != {})
      && Logs(people, met, Alice, Met(t).fromAlice) && Logs(people, met, Bob, [])
      && ReadBelow(met.bob.ratchet, met.bob.seen) && Plain(met.alice.ratchet) && Plain(met.bob.ratchet)
  {
    var people, start := PeopleOf(t, a, b), Initial(ConfigOf(a, b));
    var says, hears := Says(Alice, t.alice.greeting), Hears(Bob, 0);
    OneChat(people, start, says);
    var said := ChatStep(people, start, says);
    assert SessionOf(people, start, Alice) == a.(ratchet := start.alice.ratchet);
    if b.ratchet == start.bob.ratchet {
      assert Opening(a, b, t.alice.greeting) == [says];
    } else {
      OneChat(people, said, hears);
      ChatAppends(people, start, [says], [hears]);
    }
  }

  // ---------------------------------------------------------------- results

  /** The hypotheses on a start: fresh nodes, and directories without other conversations. */
  predicate CleanStart(s: Net) {
    FreshNet(s) && OneConversation(s)
  }

  lemma MetMirrors(s: Net, events: seq<NetEvent>) returns (c: Config, people: People, met: System)
    requires CleanStart(s) && ValidNetRun(s, events)
    requires AfterNet(s, events).alice.session.Some? && AfterNet(s, events).bob.session.Some?
    ensures Mirrors(c, people, met, Met(AfterNet(s, events))) && people.id == s.alice.deviceId
  {
    HandshakeAgreement(s, events);
    NetRunKeeps(s, events);
    NetRunFrame(s, events);
    RunStoresAlike(s, events);
    var t := AfterNet(s, events);
    var a, b := t.alice.session.value, t.bob.session.value;
    c, people := ConfigOf(a, b), PeopleOf(t, a, b);
    met := OpeningMirrors(t, a, b);
  }

  /** Typed lines are read. After every fresh handshake run, over any losses, that has left both nodes with a
      session, and after any further run in which either node types lines, receives anything the network can
      make up, and is started again after every error: a message of Alice's that Bob has not read yet is read
      when it is handed to him, with the text that was typed, if and only if it is within reach of his store;
      and it always is while Alice has sent at most MAX_SKIP_MESSAGES + 1. No replay, forgery or failure in
      between costs a message. */
  lemma TypedLinesAreRead(s: Net, events: seq<NetEvent>, chat: seq<PairEvent>, n: nat)
    requires CleanStart(s) && ValidNetRun(s, events)
    requires AfterNet(s, events).alice.session.Some? && AfterNet(s, events).bob.session.Some?
    requires ValidPairRun(Met(AfterNet(s, events)), chat)
    requires n < |AfterPair(Met(AfterNet(s, events)), chat).fromAlice|
    requires n !in AfterPair(Met(AfterNet(s, events)), chat).read
    ensures var p := AfterPair(Met(AfterNet(s, events)), chat); var line := p.fromAlice[n];
      && OnChat(p.bob, line.envelope).0 ==
           (if Reaches(p.bob, s.alice.deviceId, n) then Success(line.text)
            else Failure(SessionFailed(RatchetFailed(TooManySkipped))))
      && (|p.fromAlice| <= MAX_SKIP_MESSAGES + 1 ==> Reaches(p.bob, s.alice.deviceId, n))
  {
    var c, people, met := MetMirrors(s, events);
    var now := PairRunMirrors(c, people, met, Met(AfterNet(s, events)), chat);
    UnreadVerdict(c, people, now, AfterPair(Met(AfterNet(s, events)), chat), n);
  }

  /** Only typed lines are read. Over the same runs, whatever is handed to Bob next, a text he reads is one that
      was typed at Alice's node, under the number it carries; and Alice reads nothing. */
  lemma OnlyTypedLinesAreRead(s: Net, events: seq<NetEvent>, chat: seq<PairEvent>, who: Side, e: ChatEnvelope)
    requires CleanStart(s) && ValidNetRun(s, events)
    requires AfterNet(s, events).alice.session.Some? && AfterNet(s, events).bob.session.Some?
    requires ValidPairRun(Met(AfterNet(s, events)), chat)
    requires PairEnabled(AfterPair(Met(AfterNet(s, events)), chat), Get(who, e))
    ensures var p := AfterPair(Met(AfterNet(s, events)), chat); var result := OnChat(p.Of(who), e).0;
      result.Success? ==>
        && who.Bob? && e.header.Some? && e.header.value.messageNumber < |p.fromAlice|
        && var line := p.fromAlice[e.header.value.messageNumber];
        && result.value == line.text && e.header == line.envelope.header && e.payload == line.envelope.payload
  {
    var c, people, met := MetMirrors(s, events);
    var p := AfterPair(Met(AfterNet(s, events)), chat);
    var now := PairRunMirrors(c, people, met, Met(AfterNet(s, events)), chat);
    if OnChat(p.Of(who), e).0.Success? {
      GetIsGets(people, now, p, who, e);
      AnsweredByHeld(people, now, who, p.Of(who), e);
      if who.Alice? {
        AliceRefuses(c, people, now, e);
        assert false;
      } else {
        var m := BobAccepts(c, people, now, e);
        assert p.fromAlice[m].envelope == EnvelopeOf(people, now, Alice, m);
      }
    }
  }

  /** What is typed is sent: every line at Alice's node, and every line at Bob's while his node holds a session
      and has read something, goes out as one message with the next number; Bob's other lines do not. */
  lemma TypedLinesAreSent(s: Net, events: seq<NetEvent>, chat: seq<PairEvent>, who: Side, text: Bytes)
    requires CleanStart(s) && ValidNetRun(s, events)
    requires AfterNet(s, events).alice.session.Some? && AfterNet(s, events).bob.session.Some?
    requires ValidPairRun(Met(AfterNet(s, events)), chat)
    ensures var p := AfterPair(Met(AfterNet(s, events)), chat); var q := PairStep(p, Say(who, text));
      if who.Alice? || (p.bob.session.Some? && p.read != {}) then
        && |q.From(who)| == |p.From(who)| + 1 && q.From(who)[..|p.From(who)|] == p.From(who)
        && var line := q.From(who)[|p.From(who)|];
        && line.text == text && line.envelope.header.Some? && line.envelope.conversationId == s.alice.deviceId
        && line.envelope.header.value.messageNumber == |p.From(who)|
      else q.From(who) == p.From(who)
  {
    var c, people, met := MetMirrors(s, events);
    var p := AfterPair(Met(AfterNet(s, events)), chat);
    var now := PairRunMirrors(c, people, met, Met(AfterNet(s, events)), chat);
    SayIsSent(c, people, now, p, who, text);
  }

  lemma SayIsSent(c: Config, people: People, s: System, p: Pair, who: Side, text: Bytes)
    requires Mirrors(c, people, s, p)
    ensures var q := PairStep(p, Say(who, text));
      if who.Alice? || (p.bob.session.Some? && p.read != {}) then
        && |q.From(who)| == |p.From(who)| + 1 && q.From(who)[..|p.From(who)|] == p.From(who)
        && var line := q.From(who)[|p.From(who)|];
        && line.text == text && line.envelope.header.Some? && line.envelope.conversationId == people.id
        && line.envelope.header.value.messageNumber == |p.From(who)|
      else q.From(who) == p.From(who)
  {
    SendOutcome(c, s, who, text);
    SteppedIffRead(c, s, p.read);
    if p.Of(who).session.Some? {
      SayIsSays(people, s, who, p.Of(who), text);
    }
  }

  /** Bob has taken his DH step exactly when he has read something. */
  lemma SteppedIffRead(c: Config, s: System, read: set<nat>)
    requires Chatting(c, s) && ReadBelow(s.bob.ratchet, read) && s.bob.seen == read
    ensures read != {} ==> s.bob.stepped
  {
    assert ReadsOn(s.bob, ChainOf(c, Alice), s.honest, |s.alice.wire|);
    if read != {} {
      assert (forall m :: m !in read) ==> read == {};
      var m :| m in read;
      assert m < Index(s.bob.ratchet);
    }
  }
}
