/** A node of the demo (presidium-demo/src/session.rs and main.rs): the handshake drivers, the message
    handlers, what a node persists and what a restart brings back. */
module Node {
  import opened Results
  import opened Terms
  import opened Ratchet
  import opened Snapshot
  import opened Pqxdh
  import opened Session
  import opened Group

  datatype HandshakeError =
    | WrongRole
    | KeyAgreementFailed(pqxdh: PqxdhError)
    | NoPendingOutput
    | NoPeerIdentity
    | BadRatchetKey
    | NoSession
    | SessionFailed(session: SessionError)

  /** A stored signed prekey; its public half is the one generated with the private half. */
  datatype PrekeyMaterial = PrekeyMaterial(keyId: nat, privateKey: HybridPrivate, timestamp: nat)

  datatype Initiator = Initiator(peerIdentity: Option<IdentityPublic>, pending: Option<PqxdhOutput>)
  datatype Responder = Responder(prekey: PrekeyMaterial, peerIdentity: Option<IdentityPublic>)

  /** The five markers, and an ordinary chat envelope. `None` is a ratchet key of the wrong length. */
  datatype Wire =
    | BundleRequest
    | BundleReply(bundle: PreKeyBundle)
    | Prekey(senderDevice: string, message: PrekeyMessage)
    | RatchetKey(key: Option<X25519Public>)
    | GroupKey(distribution: GroupKeyDistribution)
    | Chat(envelope: ChatEnvelope)

  /** The state of a node; `stored` holds what it has persisted, by conversation id. */
  datatype App = App(
    identity: IdentityKeyPair,
    deviceId: string,
    greeting: Bytes,
    started: bool,
    initiator: Option<Initiator>,
    responder: Option<Responder>,
    session: Option<Session>,
    group: GroupState,
    stored: map<string, SessionState>)

  /** The random choices a handler may draw on. */
  datatype Randomness = Randomness(ephemeral: HybridPrivate, coins: Coins, ratchetKey: Scalar, groupSeed: Key)

  // ---------------------------------------------------------------- the handshake drivers

  function SendPrekey(identity: IdentityKeyPair, i: Initiator, bundle: PreKeyBundle, rnd: Randomness)
    : (Result<PrekeyMessage, HandshakeError>, Initiator)
  {
    if !VerifyBundle(bundle) then (Failure(KeyAgreementFailed(InvalidSignature)), i)
    else
      var known := i.(peerIdentity := Some(bundle.content.identityKey));
      match PqxdhInitiator(identity, rnd.ephemeral, bundle, rnd.coins)
      case Failure(e) => (Failure(KeyAgreementFailed(e)), known)
      case Success((out, message)) => (Success(message), known.(pending := Some(out)))
  }

  function Establish(i: Initiator, deviceId: string, key: Option<X25519Public>, rnd: Randomness)
    : (Result<Session, HandshakeError>, Initiator)
  {
    if i.pending.None? then (Failure(NoPendingOutput), i)
    else
      var taken := i.(pending := None);
      if i.peerIdentity.None? then (Failure(NoPeerIdentity), taken)
      else if key.None? then (Failure(BadRatchetKey), taken)
      else
        var keys := NewSessionKeys(true, i.pending.value.sharedSecret, i.peerIdentity.value);
        match ToDoubleRatchet(keys, rnd.ratchetKey, key)
        case Failure(e) => (Failure(KeyAgreementFailed(e)), taken)
        case Success(r) => (Success(Session(deviceId, i.peerIdentity.value, true, r, keys)), taken)
  }

  function KeysOfResponder(identity: IdentityKeyPair, prekey: PrekeyMaterial): ResponderKeys {
    ResponderKeys(identity, prekey.privateKey, prekey.keyId, None, None)
  }

  function OwnBundle(identity: IdentityKeyPair, prekey: PrekeyMaterial): PreKeyBundle {
    NewBundle(identity, SignedPreKey(prekey.keyId, prekey.privateKey.PublicKey(), prekey.timestamp), [])
  }

  function OnPrekey(identity: IdentityKeyPair, r: Responder, message: PrekeyMessage,
                    conversationId: string, rnd: Randomness)
    : (Result<(X25519Public, Session), HandshakeError>, Responder)
  {
    var known := r.(peerIdentity := Some(message.identityPublic));
    match PqxdhResponder(KeysOfResponder(identity, r.prekey), message)
    case Failure(e) => (Failure(KeyAgreementFailed(e)), known)
    case Success(out) =>
      var keys := NewSessionKeys(false, out.sharedSecret, message.identityPublic);
      match ToDoubleRatchet(keys, rnd.ratchetKey, None)
      case Failure(e) => (Failure(KeyAgreementFailed(e)), known)
      case Success(ratchet) =>
        var chat := Session(conversationId, message.identityPublic, false, ratchet, keys);
        (Success((PublicOf(rnd.ratchetKey), chat)), known)
  }

  // ---------------------------------------------------------------- the handlers

  function HandleConnected(app: App): (seq<Wire>, App) {
    if app.initiator.Some? && app.session.None? && !app.started then ([BundleRequest], app.(started := true))
    else ([], app)
  }

  function Save(app: App, chat: Session): App {
    app.(session := Some(chat), stored := app.stored[chat.conversationId := Persisted(chat)])
  }

  function Lookup(stored: map<string, SessionState>, id: string): Option<SessionState> {
    if id in stored then Some(stored[id]) else None
  }

  /** The session of a chat message: the live one, or else the stored one of its conversation. */
  function SessionFor(app: App, id: string): Result<Session, HandshakeError> {
    if app.session.Some? then Success(app.session.value)
    else
      match Resume(Lookup(app.stored, id), id)
      case Failure(e) => Failure(SessionFailed(e))
      case Success(None) => Failure(NoSession)
      case Success(Some(chat)) => Success(chat)
  }

  /** Write to the peer: the session advances, and is persisted when a message goes out. */
  function Tell(app: App, chat: Session, text: Bytes): (Result<ChatEnvelope, HandshakeError>, App) {
    var (result, chat') := SessionEncrypt(chat, app.identity, text);
    match result
    case Failure(e) => (Failure(SessionFailed(e)), app.(session := Some(chat')))
    case Success(envelope) => (Success(envelope), Save(app, chat'))
  }

  /** A fresh session of the initiator: persist it, distribute a group key, then greet. */
  function Greet(app: App, chat: Session, rnd: Randomness): (Result<seq<Wire>, HandshakeError>, App) {
    var (d, group) := CreateSender(app.group, app.identity, rnd.groupSeed);
    var (greeted, app') := Tell(Save(app, chat).(group := group), chat, app.greeting);
    match greeted
    case Failure(e) => (Failure(e), app')
    case Success(envelope) => (Success([GroupKey(d), Chat(envelope)]), app')
  }

  function OnRatchet(app: App, key: Option<X25519Public>, rnd: Randomness): (Result<seq<Wire>, HandshakeError>, App) {
    if app.initiator.None? then (Failure(WrongRole), app)
    else
      var (result, i) := Establish(app.initiator.value, app.deviceId, key, rnd);
      match result
      case Failure(e) => (Failure(e), app.(initiator := Some(i)))
      case Success(chat) => Greet(app.(initiator := Some(i)), chat, rnd)
  }

  lemma GreetReplacesSession(app: App, current: Option<Session>, chat: Session, rnd: Randomness)
    ensures Greet(app.(session := current), chat, rnd) == Greet(app, chat, rnd)
  {
  }

  function OnChat(app: App, envelope: ChatEnvelope): (Result<Bytes, HandshakeError>, App) {
    match SessionFor(app, envelope.conversationId)
    case Failure(e) => (Failure(e), app)
    case Success(chat) =>
      var (result, chat') := SessionDecrypt(chat, envelope);
      match result
      case Failure(e) => (Failure(SessionFailed(e)), app.(session := Some(chat')))
      case Success(plaintext) => (Success(plaintext), Save(app, chat'))
  }

  /** Handling one inbound message: the replies in order, or the error that stops the node. */
  function HandleDirect(app: App, wire: Wire, rnd: Randomness): (Result<seq<Wire>, HandshakeError>, App) {
    match wire
    case BundleRequest =>
      if app.responder.None? then (Failure(WrongRole), app)
      else (Success([BundleReply(OwnBundle(app.identity, app.responder.value.prekey))]), app)
    case BundleReply(bundle) =>
      if app.initiator.None? then (Failure(WrongRole), app)
      else
        var (result, i) := SendPrekey(app.identity, app.initiator.value, bundle, rnd);
        (match result
         case Failure(e) => Failure(e)
         case Success(message) => Success([Prekey(app.deviceId, message)]),
         app.(initiator := Some(i)))
    case Prekey(device, message) =>
      if app.responder.None? then (Failure(WrongRole), app)
      else
        var (result, r) := OnPrekey(app.identity, app.responder.value, message, device, rnd);
        (match result
         case Failure(e) => (Failure(e), app.(responder := Some(r)))
         case Success((key, chat)) => (Success([RatchetKey(Some(key))]), Save(app.(responder := Some(r)), chat)))
    case RatchetKey(key) => OnRatchet(app, key, rnd)
    case GroupKey(d) =>
      if app.session.None? then (Failure(NoSession), app)
      else (Success([]), app.(group := ApplyGroupKey(app.group, d, app.session.value.peerIdentity)))
    case Chat(envelope) =>
      var (result, app') := OnChat(app, envelope);
      (match result
       case Failure(e) => Failure(e)
       case Success(_) => Success([]),
       app')
  }

  /** Who may be sent what. A message for the other role, or for a session that does not exist, is refused and
      changes nothing; no other message is refused for that reason. */
  lemma RolesRefuse(app: App, wire: Wire, rnd: Randomness)
    ensures var (out, app') := HandleDirect(app, wire, rnd);
      && (out == Failure(WrongRole) <==>
            || ((wire.BundleRequest? || wire.Prekey?) && app.responder.None?)
            || ((wire.BundleReply? || wire.RatchetKey?) && app.initiator.None?))
      && (out == Failure(WrongRole) ==> app' == app)
      && (wire.GroupKey? ==> (out == Failure(NoSession) <==> app.session.None?) && (out.Failure? ==> app' == app))
      && (wire.Chat? && out == Failure(NoSession) ==>
            app.session.None? && wire.envelope.conversationId !in app.stored && app' == app)
  {
  }

  /** A key-agreement output serves once: whatever a ratchet key led to, the next one finds nothing pending
      unless another bundle was handled in between. */
  lemma OutputServesOnce(app: App, key: Option<X25519Public>, rnd: Randomness,
                         again: Option<X25519Public>, rnd': Randomness)
    requires app.initiator.Some?
    ensures var app' := HandleDirect(app, RatchetKey(key), rnd).1;
      HandleDirect(app', RatchetKey(again), rnd').0 == Failure(NoPendingOutput)
  {
  }

  /** Why a ratchet key is refused: nothing is pending, no peer is known, or the key has the wrong length, in
      this order; no session changes then. */
  lemma RatchetKeyRefusals(app: App, key: Option<X25519Public>, rnd: Randomness)
    requires app.initiator.Some?
    ensures var (out, app') := HandleDirect(app, RatchetKey(key), rnd); var i := app.initiator.value;
      && (out == Failure(NoPendingOutput) <==> i.pending.None?)
      && (out == Failure(NoPeerIdentity) <==> i.pending.Some? && i.peerIdentity.None?)
      && (out == Failure(BadRatchetKey) <==> i.pending.Some? && i.peerIdentity.Some? && key.None?)
      && (out.Failure? ==> app' == app.(initiator := app'.initiator))
  {
  }

  /** A prekey message names the peer, even when key agreement fails; it changes the session only when key
      agreement succeeds, and a failure is reported as it is. */
  lemma PrekeyNamesPeer(app: App, device: string, message: PrekeyMessage, rnd: Randomness)
    requires app.responder.Some?
    ensures var (out, app') := HandleDirect(app, Prekey(device, message), rnd);
      var derived := PqxdhResponder(KeysOfResponder(app.identity, app.responder.value.prekey), message);
      && app'.responder == Some(Responder(app.responder.value.prekey, Some(message.identityPublic)))
      && (out.Success? <==> derived.Success?)
      && (derived.Failure? ==>
            out == Failure(KeyAgreementFailed(derived.error)) && app' == app.(responder := app'.responder))
      && (out.Success? ==>
            && out.value == [RatchetKey(Some(PublicOf(rnd.ratchetKey)))]
            && app'.session.Some? && app'.session.value.conversationId == device
            && app'.session.value.peerIdentity == message.identityPublic)
  {
  }

  /** The bundle a node publishes determines its identity and its prekey, timestamp included. */
  lemma OwnBundleDetermines(x: IdentityKeyPair, p: PrekeyMaterial, y: IdentityKeyPair, q: PrekeyMaterial)
    ensures OwnBundle(x, p) == OwnBundle(y, q) <==> x == y && p == q
  {
    var a, b := OwnBundle(x, p).content, OwnBundle(y, q).content;
    if OwnBundle(x, p) == OwnBundle(y, q) {
      assert a.identityKey == b.identityKey && a.signedPrekey == b.signedPrekey;
      assert p.privateKey.PublicKey() == q.privateKey.PublicKey();
    }
  }

  /** A bundle is handled only under the signature of the identity it names, and that identity is then the
      peer, even when key agreement fails; what was pending is replaced only when it succeeds. */
  lemma BundleNamesPeer(app: App, bundle: PreKeyBundle, rnd: Randomness)
    requires app.initiator.Some?
    ensures var (out, app') := HandleDirect(app, BundleReply(bundle), rnd);
      if bundle.signature != SignedBy(bundle.content.identityKey, bundle.content)
      then out == Failure(KeyAgreementFailed(InvalidSignature)) && app' == app
      else
        && app'.initiator.Some? && app'.initiator.value.peerIdentity == Some(bundle.content.identityKey)
        && app' == app.(initiator := app'.initiator)
        && (out.Failure? ==> app'.initiator.value.pending == app.initiator.value.pending)
        && (out.Success? ==> |out.value| == 1 && out.value[0].Prekey? && out.value[0].senderDevice == app.deviceId)
  {
  }

  /** A line typed for the peer; without a session it is dropped. */
  function HandleLine(app: App, text: Bytes): (Result<seq<Wire>, HandshakeError>, App) {
    if app.session.None? then (Success([]), app)
    else
      var (result, app') := Tell(app, app.session.value, text);
      (match result
       case Failure(e) => Failure(e)
       case Success(envelope) => Success([Chat(envelope)]),
       app')
  }

  /** A line typed for the group; without sender keys it is dropped. */
  function HandleGroupLine(app: App, text: Bytes): (Option<GroupEnvelope>, App) {
    var (result, group) := Publish(app.group, app.identity, text);
    (if result.Success? then Some(result.value) else None, app.(group := group))
  }

  /** A message on the group topic; one that does not decrypt is dropped. */
  function HandleGossip(app: App, envelope: GroupEnvelope): (Option<Bytes>, App) {
    var (result, group) := GroupDecrypt(app.group, envelope);
    (if result.Success? then Some(result.value) else None, app.(group := group))
  }

  // ---------------------------------------------------------------- the live objects

  class InitiatorHandshake {
    const identity: IdentityKeyPair
    const deviceId: string
    var peerIdentity: Option<IdentityPublic>
    var pending: Option<PqxdhOutput>

    function State(): Initiator
      reads this
    {
      Initiator(peerIdentity, pending)
    }

    constructor (own: IdentityKeyPair, device: string)
      ensures State() == Initiator(None, None) && identity == own && deviceId == device
    {
      identity, deviceId, peerIdentity, pending := own, device, None, None;
    }

    method PrekeyFor(bundle: PreKeyBundle, rnd: Randomness) returns (result: Result<PrekeyMessage, HandshakeError>)
      modifies this
      ensures (result, State()) == SendPrekey(identity, old(State()), bundle, rnd)
    {
      if !VerifyBundle(bundle) {
        return Failure(KeyAgreementFailed(InvalidSignature));
      }
      peerIdentity := Some(bundle.content.identityKey);
      var made := PqxdhInitiator(identity, rnd.ephemeral, bundle, rnd.coins);
      if made.Failure? {
        return Failure(KeyAgreementFailed(made.error));
      }
      pending := Some(made.value.0);
      result := Success(made.value.1);
    }

    /** The pending output is taken first, whatever happens next; the session is a new object. */
    method EstablishSession(key: Option<X25519Public>, rnd: Randomness)
      returns (result: Result<ChatSession, HandshakeError>)
      modifies this
      ensures State() == Establish(old(State()), deviceId, key, rnd).1
      ensures match Establish(old(State()), deviceId, key, rnd).0
        case Failure(e) => result == Failure(e)
        case Success(s) =>
          result.Success? && fresh(result.value) && fresh(result.value.ratchet) && result.value.State() == s
    {
      var output := pending;
      pending := None;
      if output.None? {
        return Failure(NoPendingOutput);
      }
      if peerIdentity.None? {
        return Failure(NoPeerIdentity);
      }
      if key.None? {
        return Failure(BadRatchetKey);
      }
      var keys := NewSessionKeys(true, output.value.sharedSecret, peerIdentity.value);
      var ratchet := NewRatchet(keys, rnd.ratchetKey, key);
      match ratchet {
        case Failure(e) => return Failure(KeyAgreementFailed(e));
        case Success(live) =>
          var session := new ChatSession(deviceId, peerIdentity.value, true, live, keys);
          return Success(session);
      }
    }
  }

  class ResponderHandshake {
    const identity: IdentityKeyPair
    const prekey: PrekeyMaterial
    var peerIdentity: Option<IdentityPublic>

    function State(): Responder
      reads this
    {
      Responder(prekey, peerIdentity)
    }

    constructor (own: IdentityKeyPair, material: PrekeyMaterial)
      ensures State() == Responder(material, None) && identity == own
    {
      identity, prekey, peerIdentity := own, material, None;
    }

    /** The peer is recorded before key agreement; the session is a new object. */
    method AnswerPrekey(message: PrekeyMessage, conversationId: string, rnd: Randomness)
      returns (result: Result<(X25519Public, ChatSession), HandshakeError>)
      modifies this
      ensures State() == OnPrekey(identity, old(State()), message, conversationId, rnd).1
      ensures match OnPrekey(identity, old(State()), message, conversationId, rnd).0
        case Failure(e) => result == Failure(e)
        case Success((reply, s)) =>
          && result.Success? && result.value.0 == reply
          && fresh(result.value.1) && fresh(result.value.1.ratchet) && result.value.1.State() == s
    {
      peerIdentity := Some(message.identityPublic);
      var derived := PqxdhResponder(KeysOfResponder(identity, prekey), message);
      if derived.Failure? {
        return Failure(KeyAgreementFailed(derived.error));
      }
      var keys := NewSessionKeys(false, derived.value.sharedSecret, message.identityPublic);
      var ratchet := NewRatchet(keys, rnd.ratchetKey, None);
      match ratchet {
        case Failure(e) => return Failure(KeyAgreementFailed(e));
        case Success(live) =>
          var session := new ChatSession(conversationId, message.identityPublic, false, live, keys);
          return Success((PublicOf(rnd.ratchetKey), session));
      }
    }
  }

  /** A running node. It owns its driver, its session (which owns a ratchet) and its group, replaces the
      session when a handshake completes, and changes them only through their own methods. */
  class LiveNode {
    const identity: IdentityKeyPair
    const deviceId: string
    const greeting: Bytes
    var started: bool
    var initiator: InitiatorHandshake?
    var responder: ResponderHandshake?
    var session: ChatSession?
    var group: GroupChat
    var stored: map<string, SessionState>

    /** The objects a node owns. */
    function Parts(): set<object?>
      reads this, session
    {
      {this, group, initiator, responder, session} + (if session != null then {session.ratchet} else {})
    }

    predicate Valid()
      reads this, initiator, responder
    {
      && (initiator != null ==> initiator.identity == identity && initiator.deviceId == deviceId)
      && (responder != null ==> responder.identity == identity)
    }

    function State(): App
      reads Parts()
    {
      App(identity, deviceId, greeting, started,
          if initiator == null then None else Some(initiator.State()),
          if responder == null then None else Some(responder.State()),
          if session == null then None else Some(session.State()),
          group.State(), stored)
    }

    constructor AsInitiator(own: IdentityKeyPair, device: string, hello: Bytes, groupId: Bytes, id: string)
      ensures Valid() && fresh(Parts() - {null})
      ensures State() == App(own, device, hello, false, Some(Initiator(None, None)), None, None,
                             NewGroup(groupId, id), map[])
    {
      identity, deviceId, greeting, started := own, device, hello, false;
      initiator := new InitiatorHandshake(own, device);
      group := new GroupChat(groupId, id);
      responder, session, stored := null, null, map[];
    }

    constructor AsResponder(own: IdentityKeyPair, device: string, hello: Bytes, prekey: PrekeyMaterial,
                            groupId: Bytes, id: string)
      ensures Valid() && fresh(Parts() - {null})
      ensures State() == App(own, device, hello, false, None, Some(Responder(prekey, None)), None,
                             NewGroup(groupId, id), map[])
    {
      identity, deviceId, greeting, started := own, device, hello, false;
      responder := new ResponderHandshake(own, prekey);
      group := new GroupChat(groupId, id);
      initiator, session, stored := null, null, map[];
    }

    method Persist()
      requires session != null
      modifies this`stored
      ensures stored == old(stored)[session.conversationId := Persisted(session.State())]
    {
      var snapshot := FromRatchet(session.ratchet.State());
      stored := stored[session.conversationId := SessionState(session.isInitiator, session.keys, Some(snapshot))];
    }

    method PeerConnected() returns (out: seq<Wire>)
      requires Valid()
      modifies this`started
      ensures Valid() && (out, State()) == HandleConnected(old(State()))
    {
      out := [];
      if initiator != null && session == null && !started {
        started := true;
        out := [BundleRequest];
      }
    }

    /** Encrypt for the peer, and persist when that succeeds. */
    method Say(text: Bytes) returns (result: Result<ChatEnvelope, HandshakeError>)
      requires Valid() && session != null
      modifies this`stored, session.ratchet
      ensures Valid() && Parts() == old(Parts())
      ensures (result, State()) == Tell(old(State()), old(session.State()), text)
    {
      var sent := session.Encrypt(identity, text);
      if sent.Failure? {
        return Failure(SessionFailed(sent.error));
      }
      Persist();
      result := Success(sent.value);
    }

    method GreetPeer(rnd: Randomness) returns (out: Result<seq<Wire>, HandshakeError>)
      requires Valid() && session != null
      modifies Parts()
      ensures Valid() && Parts() == old(Parts())
      ensures (out, State()) == Greet(old(State()), old(session.State()), rnd)
    {
      Persist();
      var d := group.Create(identity, rnd.groupSeed);
      var greeted := Say(greeting);
      match greeted {
        case Failure(e) => return Failure(e);
        case Success(envelope) => return Success([GroupKey(d), Chat(envelope)]);
      }
    }

    /** Let the driver build a session, and install it. */
    method InstallSession(key: Option<X25519Public>, rnd: Randomness) returns (result: Result<(), HandshakeError>)
      requires Valid() && initiator != null
      modifies this`session, initiator
      ensures Valid() && fresh(Parts() - old(Parts()) - {null})
      ensures match Establish(old(initiator.State()), deviceId, key, rnd)
        case (Failure(e), i) => result == Failure(e) && State() == old(State()).(initiator := Some(i))
        case (Success(chat), i) =>
          && result == Success(()) && session != null && session.State() == chat
          && State() == old(State()).(initiator := Some(i), session := Some(chat))
    {
      var established := initiator.EstablishSession(key, rnd);
      if established.Failure? {
        return Failure(established.error);
      }
      session := established.value;
      result := Success(());
    }

    method OnRatchetKey(key: Option<X25519Public>, rnd: Randomness) returns (out: Result<seq<Wire>, HandshakeError>)
      requires Valid()
      modifies Parts()
      ensures Valid() && fresh(Parts() - old(Parts()) - {null})
      ensures (out, State()) == OnRatchet(old(State()), key, rnd)
    {
      if initiator == null {
        return Failure(WrongRole);
      }
      ghost var (expected, i) := Establish(initiator.State(), deviceId, key, rnd);
      var installed := InstallSession(key, rnd);
      if installed.Failure? {
        return Failure(installed.error);
      }
      out := GreetPeer(rnd);
      GreetReplacesSession(old(State()).(initiator := Some(i)), Some(expected.value), expected.value, rnd);
    }

    method OnPrekeyMessage(device: string, message: PrekeyMessage, rnd: Randomness)
      returns (out: Result<seq<Wire>, HandshakeError>)
      requires Valid()
      modifies Parts()
      ensures Valid() && fresh(Parts() - old(Parts()) - {null})
      ensures (out, State()) == HandleDirect(old(State()), Prekey(device, message), rnd)
    {
      if responder == null {
        return Failure(WrongRole);
      }
      var answered := responder.AnswerPrekey(message, device, rnd);
      if answered.Failure? {
        return Failure(answered.error);
      }
      session := answered.value.1;
      Persist();
      out := Success([RatchetKey(Some(answered.value.0))]);
    }

    /** A chat message; the session is resumed from the store if there is none. */
    method OnChatMessage(envelope: ChatEnvelope) returns (result: Result<Bytes, HandshakeError>)
      requires Valid()
      modifies Parts()
      ensures Valid() && fresh(Parts() - old(Parts()) - {null})
      ensures (result, State()) == OnChat(old(State()), envelope)
    {
      if session == null {
        var resumed := ChatSession.ResumeSession(Lookup(stored, envelope.conversationId), envelope.conversationId);
        if resumed.Failure? {
          return Failure(SessionFailed(resumed.error));
        }
        if resumed.value.None? {
          return Failure(NoSession);
        }
        session := resumed.value.value;
      }
      var plaintext := session.Decrypt(envelope);
      if plaintext.Failure? {
        return Failure(SessionFailed(plaintext.error));
      }
      Persist();
      result := Success(plaintext.value);
    }

    method DirectMessage(wire: Wire, rnd: Randomness) returns (out: Result<seq<Wire>, HandshakeError>)
      requires Valid()
      modifies Parts()
      ensures Valid() && fresh(Parts() - old(Parts()) - {null})
      ensures (out, State()) == HandleDirect(old(State()), wire, rnd)
    {
      match wire {
        case BundleRequest =>
          if responder == null {
            return Failure(WrongRole);
          }
          out := Success([BundleReply(OwnBundle(identity, responder.prekey))]);
        case BundleReply(bundle) =>
          if initiator == null {
            return Failure(WrongRole);
          }
          var result := initiator.PrekeyFor(bundle, rnd);
          if result.Failure? {
            return Failure(result.error);
          }
          out := Success([Prekey(deviceId, result.value)]);
        case Prekey(device, message) => out := OnPrekeyMessage(device, message, rnd);
        case RatchetKey(key) => out := OnRatchetKey(key, rnd);
        case GroupKey(d) =>
          if session == null {
            return Failure(NoSession);
          }
          group.Apply(d, session.peerIdentity);
          out := Success([]);
        case Chat(envelope) =>
          var result := OnChatMessage(envelope);
          if result.Failure? {
            return Failure(result.error);
          }
          out := Success([]);
      }
    }

    method Line(text: Bytes) returns (out: Result<seq<Wire>, HandshakeError>)
      requires Valid()
      modifies Parts()
      ensures Valid() && Parts() == old(Parts())
      ensures (out, State()) == HandleLine(old(State()), text)
    {
      if session == null {
        return Success([]);
      }
      var sent := Say(text);
      out := match sent case Failure(e) => Failure(e) case Success(envelope) => Success([Chat(envelope)]);
    }

    method GroupLine(text: Bytes) returns (out: Option<GroupEnvelope>)
      requires Valid()
      modifies Parts()
      ensures Valid() && Parts() == old(Parts())
      ensures (out, State()) == HandleGroupLine(old(State()), text)
    {
      var published := group.PublishMessage(identity, text);
      out := if published.Success? then Some(published.value) else None;
    }

    method GossipMessage(envelope: GroupEnvelope) returns (out: Option<Bytes>)
      requires Valid()
      modifies Parts()
      ensures Valid() && Parts() == old(Parts())
      ensures (out, State()) == HandleGossip(old(State()), envelope)
    {
      var result := group.Decrypt(envelope);
      out := if result.Success? then Some(result.value) else None;
    }
  }
}
