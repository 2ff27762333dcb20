/** The handshake of two nodes: every fresh run over a lossy network, up to and into the chat. */
module Handshake {
  import opened Results
  import opened Terms
  import opened Ratchet
  import opened SkipLoop
  import opened Channel
  import opened Pqxdh
  import opened PqxdhBinding
  import opened Session
  import opened Group
  import opened Node
  import TwoParty
  import opened Conversation

  // ---------------------------------------------------------------- two nodes and a network

  /** Messages in flight are delivered at most once, in any order, or lost. `failed` records that some
      handler has returned an error. */
  datatype Net = Net(alice: App, bob: App, toAlice: seq<Wire>, toBob: seq<Wire>, failed: bool)

  datatype NetEvent =
    | Connect(atAlice: bool)
    | DeliverWire(atAlice: bool, i: nat, rnd: Randomness)
    | Lose(atAlice: bool, i: nat)

  function Remove(q: seq<Wire>, i: nat): seq<Wire>
    requires i < |q|
  {
    q[..i] + q[i + 1..]
  }

  predicate NetEnabled(s: Net, e: NetEvent) {
    e.Connect? || e.i < |if e.atAlice then s.toAlice else s.toBob|
  }

  function NetStep(s: Net, e: NetEvent): Net
    requires NetEnabled(s, e)
  {
    match e
    case Connect(atAlice) =>
      var (out, app) := HandleConnected(if atAlice then s.alice else s.bob);
      if atAlice then s.(alice := app, toBob := s.toBob + out) else s.(bob := app, toAlice := s.toAlice + out)
    case DeliverWire(atAlice, i, rnd) =>
      if atAlice then
        var (out, app) := HandleDirect(s.alice, s.toAlice[i], rnd);
        s.(alice := app, toAlice := Remove(s.toAlice, i),
           toBob := s.toBob + (if out.Success? then out.value else []), failed := s.failed || out.Failure?)
      else
        var (out, app) := HandleDirect(s.bob, s.toBob[i], rnd);
        s.(bob := app, toBob := Remove(s.toBob, i),
           toAlice := s.toAlice + (if out.Success? then out.value else []), failed := s.failed || out.Failure?)
    case Lose(atAlice, i) =>
      if atAlice then s.(toAlice := Remove(s.toAlice, i)) else s.(toBob := Remove(s.toBob, i))
  }

  predicate ValidNetRun(s: Net, events: seq<NetEvent>)
    decreases |events|
  {
    events != [] ==> NetEnabled(s, events[0]) && ValidNetRun(NetStep(s, events[0]), events[1..])
  }

  function AfterNet(s: Net, events: seq<NetEvent>): Net
    requires ValidNetRun(s, events)
    decreases |events|
  {
    if events == [] then s else AfterNet(NetStep(s, events[0]), events[1..])
  }

  /** Two nodes before their first contact: Alice runs as the initiator, Bob as the responder. */
  predicate FreshNet(s: Net) {
    && s.alice.initiator == Some(Initiator(None, None)) && s.alice.responder.None?
    && s.bob.initiator.None? && s.bob.responder.Some?
    && s.alice.session.None? && s.bob.session.None? && !s.alice.started
    && s.toAlice == [] && s.toBob == [] && !s.failed
  }

  // ---------------------------------------------------------------- the invariant, phase by phase

  predicate Roles(s: Net) {
    && s.alice.initiator.Some? && s.alice.responder.None?
    && s.bob.initiator.None? && s.bob.responder.Some?
    && !s.failed
  }

  predicate Idle(s: Net)
    requires Roles(s)
  {
    && s.alice.session.None? && s.bob.session.None?
    && s.alice.initiator.value.pending.None?
  }

  /** Nothing has been sent, the request is on its way, or the bundle is. */
  predicate BeforePrekey(s: Net)
    requires Roles(s)
  {
    && Idle(s)
    && (if !s.alice.started then s.toAlice == [] && s.toBob == []
        else
          || (s.toAlice == [] && (s.toBob == [] || s.toBob == [BundleRequest]))
          || (s.toBob == [] && s.toAlice == [BundleReply(OwnBundle(s.bob.identity, s.bob.responder.value.prekey))]))
  }

  /** Alice holds a PQXDH output that Bob would reproduce from the prekey message in flight. */
  predicate PrekeySent(s: Net)
    requires Roles(s)
  {
    var i := s.alice.initiator.value;
    && s.alice.started && s.alice.session.None? && s.bob.session.None?
    && i.pending.Some? && i.peerIdentity == Some(Public(s.bob.identity))
    && s.toAlice == []
    && (s.toBob == [] ||
        (&& |s.toBob| == 1 && s.toBob[0].Prekey?
         && s.toBob[0].senderDevice == s.alice.deviceId
         && s.toBob[0].message.identityPublic == Public(s.alice.identity)
         && PqxdhResponder(KeysOfResponder(s.bob.identity, s.bob.responder.value.prekey), s.toBob[0].message)
              == Success(i.pending.value)))
  }

  /** The session Bob builds from the shared secret `secret` and the ratchet key `own`. */
  function BobSession(s: Net, secret: Key, own: Scalar): Session {
    var keys := NewSessionKeys(false, secret, Public(s.alice.identity));
    Session(s.alice.deviceId, Public(s.alice.identity), false,
            InitResponder("presidium-session", keys.rootKey, own, []), keys)
  }

  /** The session Alice builds from `secret`, her ratchet key and Bob's, before she greets. */
  function AliceSession(s: Net, secret: Key, own: Scalar, peer: Scalar): Session {
    var keys := NewSessionKeys(true, secret, Public(s.bob.identity));
    Session(s.alice.deviceId, Public(s.bob.identity), true,
            InitInitiator("presidium-session", keys.rootKey, own, PublicOf(peer), []), keys)
  }

  function OwnKey(session: Session): Scalar {
    if session.ratchet.sending.ourKey.Some? then session.ratchet.sending.ourKey.value else 0
  }

  predicate Answered(s: Net)
    requires Roles(s)
  {
    var i := s.alice.initiator.value;
    && s.alice.started && s.alice.session.None? && s.bob.session.Some?
    && i.pending.Some? && i.peerIdentity == Some(Public(s.bob.identity))
    && s.bob.session.value == BobSession(s, i.pending.value.sharedSecret, OwnKey(s.bob.session.value))
    && s.toBob == []
    && (s.toAlice == [] || s.toAlice == [RatchetKey(Some(PublicOf(OwnKey(s.bob.session.value))))])
  }

  /** Both sessions stand on one secret; what is left in flight is the group key and the greeting, and
      until the greeting arrives Bob's session is as he built it. */
  ghost predicate Established(s: Net) {
    && s.alice.started && s.alice.session.Some? && s.bob.session.Some? && s.toAlice == []
    && exists secret: Key, own: Scalar, peer: Scalar :: EstablishedFrom(s, secret, own, peer)
  }

  predicate EstablishedFrom(s: Net, secret: Key, own: Scalar, peer: Scalar)
    requires s.alice.session.Some? && s.bob.session.Some?
  {
    var start := AliceSession(s, secret, own, peer);
    var unread := BobSession(s, secret, peer);
    var (greeting, chat) := SessionEncrypt(start, s.alice.identity, s.alice.greeting);
    && greeting.Success?
    && s.alice.session.value == chat
    && (s.bob.session.value == unread || s.bob.session.value == SessionDecrypt(unread, greeting.value).1)
    && LeftInFlight(s.toBob, greeting.value)
    && (HasChat(s.toBob) ==> s.bob.session.value == unread)
  }

  /** Only group keys and at most one copy of the greeting. */
  predicate LeftInFlight(q: seq<Wire>, greeting: ChatEnvelope) {
    && (forall i :: 0 <= i < |q| ==> q[i].GroupKey? || q[i] == Chat(greeting))
    && (forall i, j :: 0 <= i < j < |q| ==> !(q[i].Chat? && q[j].Chat?))
  }

  predicate HasChat(q: seq<Wire>) {
    exists i :: 0 <= i < |q| && q[i].Chat?
  }

  ghost predicate Phases(s: Net) {
    Roles(s) && (BeforePrekey(s) || PrekeySent(s) || Answered(s) || Established(s))
  }

  // ---------------------------------------------------------------- each step keeps the invariant

  /** The greeting is read: the gate takes Bob's DH step and the first message of Alice's chain opens. */
  lemma GreetingIsRead(s: Net, secret: Key, own: Scalar, peer: Scalar)
    ensures var (greeting, _) := SessionEncrypt(AliceSession(s, secret, own, peer), s.alice.identity, s.alice.greeting);
      greeting.Success? && SessionDecrypt(BobSession(s, secret, peer), greeting.value).0 == Success(s.alice.greeting)
  {
    var unread := BobSession(s, secret, peer);
    var shared := DiffieHellman(own, PublicOf(peer));
    DiffieHellmanAgrees(own, peer, ZeroPoint);
    var chain := FirstChain(unread.keys.rootKey, shared).key;
    var r := DhStep(unread.ratchet, PublicOf(own)).1;
    assert r.receiving.chainKey == Some(ChainKey(chain, 0));
    assert OnChain(r.receiving, chain);
    FirstDelivery(r, chain, PublicOf(own), 0, s.alice.greeting, {});
  }

  lemma LoseKeeps(s: Net, atAlice: bool, i: nat)
    requires Phases(s) && NetEnabled(s, Lose(atAlice, i))
    ensures Phases(NetStep(s, Lose(atAlice, i)))
  {
    var s' := NetStep(s, Lose(atAlice, i));
    if Established(s) {
      var secret, own, peer :| EstablishedFrom(s, secret, own, peer);
      RemoveKeepsRest(s.toBob, i,
        SessionEncrypt(AliceSession(s, secret, own, peer), s.alice.identity, s.alice.greeting).0.value);
      assert EstablishedFrom(s', secret, own, peer);
    } else if Answered(s) {
      assert Answered(s');
    } else if PrekeySent(s) {
      assert PrekeySent(s');
    } else {
      assert BeforePrekey(s');
    }
  }

  lemma ConnectKeeps(s: Net, atAlice: bool)
    requires Phases(s)
    ensures Phases(NetStep(s, Connect(atAlice)))
  {
    var s' := NetStep(s, Connect(atAlice));
    if !s.alice.started && atAlice {
      assert BeforePrekey(s');
    } else {
      assert s' == s;
    }
  }

  /** The initiator always accepts the responder's own bundle, and the responder reproduces its output. */
  lemma OwnBundleAgrees(alice: IdentityKeyPair, bob: IdentityKeyPair, prekey: PrekeyMaterial, rnd: Randomness)
    ensures var made := PqxdhInitiator(alice, rnd.ephemeral, OwnBundle(bob, prekey), rnd.coins);
      && made.Success?
      && PqxdhResponder(KeysOfResponder(bob, prekey), made.value.1) == Success(made.value.0)
      && made.value.1.identityPublic == Public(alice)
  {
    InitiatorSucceedsIff(alice, rnd.ephemeral, OwnBundle(bob, prekey), rnd.coins);
    PqxdhAgreement(alice, rnd.ephemeral, OwnBundle(bob, prekey), rnd.coins, KeysOfResponder(bob, prekey));
  }

  lemma BundleReplyKeeps(s: Net, rnd: Randomness)
    requires Roles(s) && BeforePrekey(s) && s.alice.started
    requires s.toAlice == [BundleReply(OwnBundle(s.bob.identity, s.bob.responder.value.prekey))]
    ensures var s' := NetStep(s, DeliverWire(true, 0, rnd));
      Roles(s') && PrekeySent(s') && |s'.toBob| == 1
  {
    var s' := NetStep(s, DeliverWire(true, 0, rnd));
    OwnBundleAgrees(s.alice.identity, s.bob.identity, s.bob.responder.value.prekey, rnd);
    assert |s'.toBob| == 1 && s'.toBob[0].Prekey?;
    assert PrekeySent(s');
  }

  lemma PrekeyKeeps(s: Net, rnd: Randomness)
    requires Roles(s) && PrekeySent(s) && s.toBob != []
    ensures var s' := NetStep(s, DeliverWire(false, 0, rnd));
      Roles(s') && Answered(s') && |s'.toAlice| == 1
  {
    var s' := NetStep(s, DeliverWire(false, 0, rnd));
    assert s'.toAlice == [RatchetKey(Some(PublicOf(rnd.ratchetKey)))];
    assert Answered(s');
  }

  lemma RatchetKeyKeeps(s: Net, rnd: Randomness)
    requires Roles(s) && Answered(s) && s.toAlice != []
    ensures var s' := NetStep(s, DeliverWire(true, 0, rnd));
      Roles(s') && Established(s') && |s'.toBob| == 2 && s'.toBob[0].GroupKey? && s'.toBob[1].Chat?
  {
    var s' := NetStep(s, DeliverWire(true, 0, rnd));
    var secret, peer := s.alice.initiator.value.pending.value.sharedSecret, OwnKey(s.bob.session.value);
    GreetingIsRead(s, secret, rnd.ratchetKey, peer);
    assert |s'.toBob| == 2 && s'.toBob[0].GroupKey? && s'.toBob[1].Chat?;
    assert EstablishedFrom(s', secret, rnd.ratchetKey, peer);
  }

  /** Handling the group key or the greeting changes Bob's group or session and sends nothing. */
  lemma EstablishedHandling(s: Net, wire: Wire, rnd: Randomness, secret: Key, own: Scalar, peer: Scalar)
    requires s.alice.session.Some? && s.bob.session.Some? && EstablishedFrom(s, secret, own, peer) && wire in s.toBob
    ensures var (out, bob) := HandleDirect(s.bob, wire, rnd);
      var greeting := SessionEncrypt(AliceSession(s, secret, own, peer), s.alice.identity, s.alice.greeting).0.value;
      && out == Success([])
      && bob == s.bob.(group := bob.group, session := bob.session, stored := bob.stored) && bob.session.Some?
      && bob.session.value == if wire.Chat? then SessionDecrypt(BobSession(s, secret, peer), greeting).1
                              else s.bob.session.value
  {
    GreetingIsRead(s, secret, own, peer);
  }

  lemma EstablishedDeliveryKeeps(s: Net, i: nat, rnd: Randomness)
    requires Roles(s) && Established(s) && i < |s.toBob|
    ensures var s' := NetStep(s, DeliverWire(false, i, rnd));
      Roles(s') && Established(s') && s'.toBob == Remove(s.toBob, i)
  {
    var s' := NetStep(s, DeliverWire(false, i, rnd));
    var secret, own, peer :| EstablishedFrom(s, secret, own, peer);
    EstablishedHandling(s, s.toBob[i], rnd, secret, own, peer);
    RemoveKeepsRest(s.toBob, i,
      SessionEncrypt(AliceSession(s, secret, own, peer), s.alice.identity, s.alice.greeting).0.value);
    assert s'.toBob == Remove(s.toBob, i) && s'.toAlice == [];
    assert s'.alice == s.alice && s'.bob.identity == s.bob.identity;
    assert AliceSession(s', secret, own, peer) == AliceSession(s, secret, own, peer);
    assert BobSession(s', secret, peer) == BobSession(s, secret, peer);
    assert EstablishedFrom(s', secret, own, peer);
  }

  lemma RemoveKeepsRest(q: seq<Wire>, i: nat, greeting: ChatEnvelope)
    requires i < |q| && LeftInFlight(q, greeting)
    ensures LeftInFlight(Remove(q, i), greeting)
    ensures HasChat(Remove(q, i)) ==> HasChat(q) && !q[i].Chat?
  {
    assert forall k :: 0 <= k < |Remove(q, i)| ==> Remove(q, i)[k] == q[if k < i then k else k + 1];
  }

  lemma NetStepKeeps(s: Net, e: NetEvent)
    requires Phases(s) && NetEnabled(s, e)
    ensures Phases(NetStep(s, e))
  {
    match e {
      case Connect(atAlice) => ConnectKeeps(s, atAlice);
      case Lose(atAlice, i) => LoseKeeps(s, atAlice, i);
      case DeliverWire(atAlice, i, rnd) =>
        if Established(s) {
          EstablishedDeliveryKeeps(s, i, rnd);
        } else if Answered(s) {
          RatchetKeyKeeps(s, rnd);
        } else if PrekeySent(s) {
          PrekeyKeeps(s, rnd);
        } else if atAlice {
          BundleReplyKeeps(s, rnd);
        } else {
          assert BeforePrekey(NetStep(s, e));
        }
    }
  }

  lemma {:induction false} NetRunKeeps(s: Net, events: seq<NetEvent>)
    requires Phases(s) && ValidNetRun(s, events)
    ensures Phases(AfterNet(s, events))
    decreases |events|
  {
    if events == [] {
    } else {
      NetStepKeeps(s, events[0]);
      NetRunKeeps(NetStep(s, events[0]), events[1..]);
    }
  }

  lemma HandlersKeepNames(app: App, wire: Wire, rnd: Randomness)
    ensures HandleDirect(app, wire, rnd).1.identity == app.identity
    ensures HandleDirect(app, wire, rnd).1.deviceId == app.deviceId
    ensures HandleDirect(app, wire, rnd).1.greeting == app.greeting
    ensures HandleDirect(app, wire, rnd).1.group.groupId == app.group.groupId
  {
  }

  lemma NetStepFrame(s: Net, e: NetEvent)
    requires NetEnabled(s, e)
    ensures var t := NetStep(s, e);
      && t.alice.identity == s.alice.identity && t.alice.deviceId == s.alice.deviceId
      && t.alice.greeting == s.alice.greeting && t.alice.group.groupId == s.alice.group.groupId
      && t.bob.identity == s.bob.identity && t.bob.group.groupId == s.bob.group.groupId
  {
    if e.DeliverWire? && e.atAlice {
      HandlersKeepNames(s.alice, s.toAlice[e.i], e.rnd);
    } else if e.DeliverWire? {
      HandlersKeepNames(s.bob, s.toBob[e.i], e.rnd);
    }
  }

  lemma {:induction false} NetRunFrame(s: Net, events: seq<NetEvent>)
    requires ValidNetRun(s, events)
    ensures var t := AfterNet(s, events);
      && t.alice.identity == s.alice.identity && t.alice.deviceId == s.alice.deviceId
      && t.alice.greeting == s.alice.greeting && t.alice.group.groupId == s.alice.group.groupId
      && t.bob.identity == s.bob.identity && t.bob.group.groupId == s.bob.group.groupId
    decreases |events|
  {
    if events == [] {
    } else {
      NetStepFrame(s, events[0]);
      NetRunFrame(NetStep(s, events[0]), events[1..]);
    }
  }

  // ---------------------------------------------------------------- results

  /** The ratchet configuration two established sessions share. */
  function ConfigOf(a: Session, b: Session): TwoParty.Config {
    TwoParty.Config(b.keys.rootKey, OwnKey(a), OwnKey(b), "presidium-session", [])
  }

  /** Bob's session, as built or after the greeting has been read. */
  predicate BobStands(a: Session, b: Session, alice: IdentityKeyPair, greeting: Bytes) {
    var start := TwoParty.Initial(ConfigOf(a, b));
    var unread := b.(ratchet := start.bob.ratchet);
    var sent := SessionEncrypt(a.(ratchet := start.alice.ratchet), alice, greeting).0;
    b == unread || (sent.Success? && b == SessionDecrypt(unread, sent.value).1)
  }

  /** Handshake agreement. In every fresh run, over any losses and reorderings and with each message
      delivered at most once, no handler ever fails; and whenever both nodes hold a session, the two
      have the same root key and conversation id and each other's identity, Alice's peer ratchet key
      is Bob's own, Alice's ratchet is the two-party initiator's after its greeting, and Bob's is the
      two-party responder's, as built while the greeting is in flight, and otherwise as built or having
      read the greeting. */
  lemma HandshakeAgreement(s: Net, events: seq<NetEvent>)
    requires FreshNet(s) && ValidNetRun(s, events)
    ensures !AfterNet(s, events).failed
    ensures var t := AfterNet(s, events);
      t.alice.session.Some? && t.bob.session.Some? ==>
        var a, b := t.alice.session.value, t.bob.session.value;
        && a.keys.rootKey == b.keys.rootKey
        && a.conversationId == b.conversationId == s.alice.deviceId
        && a.peerIdentity == Public(s.bob.identity) && b.peerIdentity == Public(s.alice.identity)
        && a.isInitiator && !b.isInitiator
        && a.ratchet.receiving.theirPublic == a.ratchet.sending.theirPublic == Some(PublicOf(OwnKey(b)))
        && a.ratchet == EncryptStep(TwoParty.Initial(ConfigOf(a, b)).alice.ratchet, t.alice.greeting).1
        && BobStands(a, b, s.alice.identity, t.alice.greeting)
        && (HasChat(t.toBob) ==> b.ratchet == TwoParty.Initial(ConfigOf(a, b)).bob.ratchet)
  {
    NetRunKeeps(s, events);
    NetRunFrame(s, events);
    var t := AfterNet(s, events);
    if t.alice.session.Some? && t.bob.session.Some? {
      var secret, own, peer :| EstablishedFrom(t, secret, own, peer);
      SessionsAgree(t, secret, own, peer);
    }
  }

  lemma SessionsAgree(t: Net, secret: Key, own: Scalar, peer: Scalar)
    requires t.alice.session.Some? && t.bob.session.Some? && EstablishedFrom(t, secret, own, peer)
    ensures var a, b := t.alice.session.value, t.bob.session.value;
      && a.keys.rootKey == b.keys.rootKey
      && a.conversationId == b.conversationId == t.alice.deviceId
      && a.peerIdentity == Public(t.bob.identity) && b.peerIdentity == Public(t.alice.identity)
      && a.isInitiator && !b.isInitiator
      && OwnKey(a) == own && OwnKey(b) == peer
      && a.ratchet.receiving.theirPublic == a.ratchet.sending.theirPublic == Some(PublicOf(peer))
      && a.ratchet == EncryptStep(TwoParty.Initial(ConfigOf(a, b)).alice.ratchet, t.alice.greeting).1
      && BobStands(a, b, t.alice.identity, t.alice.greeting)
  {
    var unread := BobSession(t, secret, peer);
    var greeting := SessionEncrypt(AliceSession(t, secret, own, peer), t.alice.identity, t.alice.greeting).0.value;
    var read := SessionDecrypt(unread, greeting).1;
    assert read.ratchet.sending.ourKey == unread.ratchet.sending.ourKey;
    var a, b := t.alice.session.value, t.bob.session.value;
    assert a.(ratchet := TwoParty.Initial(ConfigOf(a, b)).alice.ratchet) == AliceSession(t, secret, own, peer);
    assert b.(ratchet := TwoParty.Initial(ConfigOf(a, b)).bob.ratchet) == unread;
  }

  // ---------------------------------------------------------------- from the handshake into the chat

  /** The people of a chat between two established sessions. */
  function PeopleOf(t: Net, a: Session, b: Session): People {
    People(t.alice.identity, t.bob.identity, a.conversationId, a.keys, b.keys)
  }

  /** The chat events that the handshake itself amounts to. */
  function Opening(a: Session, b: Session, greeting: Bytes): seq<ChatEvent> {
    [Says(TwoParty.Alice, greeting)]
    + (if b.ratchet == TwoParty.Initial(ConfigOf(a, b)).bob.ratchet then [] else [Hears(TwoParty.Bob, 0)])
  }

  lemma {:induction false} ChatAppends(people: People, s: TwoParty.System, x: seq<ChatEvent>, y: seq<ChatEvent>)
    requires ValidChat(people, s, x) && ValidChat(people, AfterChat(people, s, x), y)
    ensures ValidChat(people, s, x + y)
    ensures AfterChat(people, s, x + y) == AfterChat(people, AfterChat(people, s, x), y)
    decreases |x|
  {
    if x == [] {
      assert x + y == y;
    } else {
      assert (x + y)[0] == x[0] && (x + y)[1..] == x[1..] + y;
      ChatAppends(people, ChatStep(people, s, x[0]), x[1..], y);
    }
  }

  lemma OneChat(people: People, s: TwoParty.System, e: ChatEvent)
    requires ChatEnabled(people, s, e)
    ensures ValidChat(people, s, [e]) && AfterChat(people, s, [e]) == ChatStep(people, s, e)
  {
    assert ValidChat(people, ChatStep(people, s, e), [e][1..]);
  }

  /** Two established sessions are the sessions of a chat that has run its opening. */
  lemma OpeningReached(t: Net, a: Session, b: Session)
    requires a.isInitiator && !b.isInitiator && a.conversationId == b.conversationId
    requires a.peerIdentity == Public(t.bob.identity) && b.peerIdentity == Public(t.alice.identity)
    requires a.ratchet == EncryptStep(TwoParty.Initial(ConfigOf(a, b)).alice.ratchet, t.alice.greeting).1
    requires BobStands(a, b, t.alice.identity, t.alice.greeting)
    ensures var people, start := PeopleOf(t, a, b), TwoParty.Initial(ConfigOf(a, b));
      var opening := Opening(a, b, t.alice.greeting);
      && ValidChat(people, start, opening)
      && SessionOf(people, AfterChat(people, start, opening), TwoParty.Alice) == a
      && SessionOf(people, AfterChat(people, start, opening), TwoParty.Bob) == b
  {
    var people, start := PeopleOf(t, a, b), TwoParty.Initial(ConfigOf(a, b));
    var says, hears := Says(TwoParty.Alice, t.alice.greeting), Hears(TwoParty.Bob, 0);
    OneChat(people, start, says);
    var said := ChatStep(people, start, says);
    assert SessionOf(people, start, TwoParty.Alice) == a.(ratchet := start.alice.ratchet);
    if b.ratchet == start.bob.ratchet {
      assert Opening(a, b, t.alice.greeting) == [says];
    } else {
      OneChat(people, said, hears);
      ChatAppends(people, start, [says], [hears]);
      assert SessionOf(people, said, TwoParty.Bob) == b.(ratchet := start.bob.ratchet);
    }
  }

  /** From first contact to delivered messages. After every fresh handshake run that has left both nodes
      with a session, and every chat that follows it, with replays, forgeries and restarts, Bob reads
      what Alice wrote, the greeting included, whenever his store or his reach allows. */
  lemma HandshakeThenChat(s: Net, events: seq<NetEvent>, chat: seq<ChatEvent>, n: nat)
    requires FreshNet(s) && ValidNetRun(s, events)
    requires AfterNet(s, events).alice.session.Some? && AfterNet(s, events).bob.session.Some?
    ensures var t := AfterNet(s, events); var a, b := t.alice.session.value, t.bob.session.value;
      var people, start := PeopleOf(t, a, b), TwoParty.Initial(ConfigOf(a, b));
      var opening := Opening(a, b, t.alice.greeting);
      && ValidChat(people, start, opening)
      && var met := AfterChat(people, start, opening);
      && SessionOf(people, met, TwoParty.Alice) == a && SessionOf(people, met, TwoParty.Bob) == b
      && (ValidChat(people, met, chat) && n < |AfterChat(people, met, chat).alice.wire| ==>
            Delivers(people, AfterChat(people, met, chat), n))
  {
    HandshakeAgreement(s, events);
    NetRunFrame(s, events);
    var t := AfterNet(s, events);
    var a, b := t.alice.session.value, t.bob.session.value;
    OpeningReached(t, a, b);
    var people, start := PeopleOf(t, a, b), TwoParty.Initial(ConfigOf(a, b));
    var opening := Opening(a, b, t.alice.greeting);
    var met := AfterChat(people, start, opening);
    if ValidChat(people, met, chat) && n < |AfterChat(people, met, chat).alice.wire| {
      ChatAppends(people, start, opening, chat);
      ChatDelivery(ConfigOf(a, b), people, opening + chat, TwoParty.Bob, n);
    }
  }

  /** Bob's verdict on message `n` of Alice's. */
  predicate Delivers(people: People, s: TwoParty.System, n: nat)
    requires n < |s.alice.wire|
  {
    && |s.alice.plaintexts| == |s.alice.wire|
    && SessionDecrypt(SessionOf(people, s, TwoParty.Bob), EnvelopeOf(people, s, TwoParty.Alice, n)).0 ==
         if s.bob.stepped then Lifted(Reading(s.bob.ratchet, n, s.alice.plaintexts[n]))
         else if n <= MAX_SKIP_MESSAGES then Success(s.alice.plaintexts[n])
         else Failure(RatchetFailed(TooManySkipped))
  }

  // ---------------------------------------------------------------- duplicates

  /** Alice after handling one bundle once per attempt. */
  function AfterBundles(alice: App, bundle: PreKeyBundle, attempts: seq<Randomness>): App {
    if attempts == [] then alice
    else
      var n := |attempts| - 1;
      HandleDirect(AfterBundles(alice, bundle, attempts[..n]), BundleReply(bundle), attempts[n]).1
  }

  /** What Alice sends at one attempt, whatever came before: the same as from her first state. */
  lemma {:induction false} BundlesKeepLatest(alice: App, bob: IdentityKeyPair, prekey: PrekeyMaterial,
                                             attempts: seq<Randomness>)
    requires alice.initiator.Some?
    ensures var after := AfterBundles(alice, OwnBundle(bob, prekey), attempts);
      && after.initiator.Some? && after == alice.(initiator := after.initiator)
      && (attempts != [] ==>
            var rnd := attempts[|attempts| - 1];
            var made := PqxdhInitiator(alice.identity, rnd.ephemeral, OwnBundle(bob, prekey), rnd.coins);
            && made.Success?
            && after.initiator.value == Initiator(Some(Public(bob)), Some(made.value.0)))
  {
    if attempts == [] {
    } else {
      var n := |attempts| - 1;
      BundlesKeepLatest(alice, bob, prekey, attempts[..n]);
      OwnBundleAgrees(alice.identity, bob, prekey, attempts[n]);
    }
  }

  predicate SameDraw(x: Randomness, y: Randomness) {
    x.ephemeral.classical == y.ephemeral.classical && x.coins.(c5 := 0) == y.coins.(c5 := 0)
  }

  /** Why at-most-once delivery is needed. If Alice handles Bob's bundle any number of times, Bob, in
      whatever state by then, answers any one of her prekey messages, and Alice then receives a ratchet
      key, both hold a session, and the two roots agree if and only if the attempt that Bob answered drew
      the same ephemeral X25519 secret and encapsulation coins as the latest, which Alice holds pending. */
  lemma DuplicateBundleSplitsSessions(s: Net, attempts: seq<Randomness>, k: nat, bob: App, bobRnd: Randomness,
                                      key: X25519Public, last: Randomness)
    requires FreshNet(s) && k < |attempts|
    requires bob.identity == s.bob.identity && bob.responder.Some?
    requires bob.responder.value.prekey == s.bob.responder.value.prekey
    ensures var bundle := OwnBundle(s.bob.identity, s.bob.responder.value.prekey);
      var sent := HandleDirect(AfterBundles(s.alice, bundle, attempts[..k]), BundleReply(bundle), attempts[k]).0;
      && sent.Success? && |sent.value| == 1
      && var (answer, bob') := HandleDirect(bob, sent.value[0], bobRnd);
      && answer.Success? && answer.value == [RatchetKey(Some(PublicOf(bobRnd.ratchetKey)))]
      && var alice' := HandleDirect(AfterBundles(s.alice, bundle, attempts), RatchetKey(Some(key)), last).1;
      && alice'.session.Some? && bob'.session.Some?
      && (alice'.session.value.keys.rootKey == bob'.session.value.keys.rootKey <==>
            SameDraw(attempts[k], attempts[|attempts| - 1]))
  {
    var prekey := s.bob.responder.value.prekey;
    var bundle, x, y := OwnBundle(s.bob.identity, prekey), attempts[k], attempts[|attempts| - 1];
    BundlesKeepLatest(s.alice, s.bob.identity, prekey, attempts[..k]);
    BundlesKeepLatest(s.alice, s.bob.identity, prekey, attempts);
    AttemptAnswered(AfterBundles(s.alice, bundle, attempts[..k]), bob, x, bobRnd);
    PendingEstablished(AfterBundles(s.alice, bundle, attempts), key, last);
    OwnBundleAgrees(s.alice.identity, s.bob.identity, prekey, y);
    var answered := PqxdhInitiator(s.alice.identity, x.ephemeral, bundle, x.coins).value.0.sharedSecret;
    var pending := PqxdhInitiator(s.alice.identity, y.ephemeral, bundle, y.coins).value.0.sharedSecret;
    SessionKeysAgreeIffSecretsAgree(pending, answered, Public(s.bob.identity), Public(s.alice.identity));
    SecretsEqualIff(s.alice.identity, x.ephemeral, x.coins, s.alice.identity, y.ephemeral, y.coins, bundle);
  }

  /** One attempt, and Bob's answer to it. */
  lemma AttemptAnswered(alice: App, bob: App, rnd: Randomness, bobRnd: Randomness)
    requires alice.initiator.Some? && bob.responder.Some?
    ensures var bundle := OwnBundle(bob.identity, bob.responder.value.prekey);
      var sent := HandleDirect(alice, BundleReply(bundle), rnd).0;
      var made := PqxdhInitiator(alice.identity, rnd.ephemeral, bundle, rnd.coins);
      && made.Success? && sent.Success? && |sent.value| == 1
      && var (answer, bob') := HandleDirect(bob, sent.value[0], bobRnd);
      && answer.Success? && answer.value == [RatchetKey(Some(PublicOf(bobRnd.ratchetKey)))]
      && bob'.session.Some?
      && bob'.session.value.keys == NewSessionKeys(false, made.value.0.sharedSecret, Public(alice.identity))
  {
    OwnBundleAgrees(alice.identity, bob.identity, bob.responder.value.prekey, rnd);
  }

  /** A ratchet key turns the pending output into a session. */
  lemma PendingEstablished(alice: App, key: X25519Public, rnd: Randomness)
    requires alice.initiator.Some? && alice.initiator.value.pending.Some? && alice.initiator.value.peerIdentity.Some?
    ensures var alice' := HandleDirect(alice, RatchetKey(Some(key)), rnd).1; var i := alice.initiator.value;
      && alice'.session.Some?
      && alice'.session.value.keys == NewSessionKeys(true, i.pending.value.sharedSecret, i.peerIdentity.value)
  {
  }
}
