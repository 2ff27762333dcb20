/** What a node persists over its runs, and what a restart brings back. */
module NodeRestart {
  import opened Results
  import opened Terms
  import opened Ratchet
  import opened Snapshot
  import opened Pqxdh
  import opened Session
  import opened Group
  import opened Node

  /** What a node reacts to. */
  datatype Input =
    | Connected
    | Inbound(wire: Wire, rnd: Randomness)
    | Typed(text: Bytes)
    | TypedToGroup(text: Bytes)
    | Gossiped(envelope: GroupEnvelope)

  /** The error that stops the node, if any, and its state. */
  function Handle(app: App, input: Input): (Option<HandshakeError>, App) {
    match input
    case Connected => (None, HandleConnected(app).1)
    case Inbound(wire, rnd) =>
      var (result, app') := HandleDirect(app, wire, rnd);
      (if result.Failure? then Some(result.error) else None, app')
    case Typed(text) =>
      var (result, app') := HandleLine(app, text);
      (if result.Failure? then Some(result.error) else None, app')
    case TypedToGroup(text) => (None, HandleGroupLine(app, text).1)
    case Gossiped(envelope) => (None, HandleGossip(app, envelope).1)
  }

  /** A run of a node up to its end or its first error. */
  function RunNode(app: App, inputs: seq<Input>): (Option<HandshakeError>, App)
    decreases |inputs|
  {
    if inputs == [] then (None, app)
    else
      var (error, app') := Handle(app, inputs[0]);
      if error.Some? then (error, app') else RunNode(app', inputs[1..])
  }

  /** A new process on the same directory: the initiator resumes its own conversation at once, the
      responder resumes on the first chat message. */
  function RestartNode(app: App): Result<App, HandshakeError> {
    var clean := app.(started := false, session := None,
                      group := NewGroup(app.group.groupId, app.group.conversationId));
    if app.initiator.None? then
      var responder := if app.responder.None? then None else Some(app.responder.value.(peerIdentity := None));
      Success(clean.(responder := responder))
    else
      match Resume(Lookup(app.stored, app.deviceId), app.deviceId)
      case Failure(e) => Failure(SessionFailed(e))
      case Success(chat) => Success(clean.(initiator := Some(Initiator(None, None)), session := chat))
  }

  /** The session is what the store holds for its conversation; an initiator's directory holds no
      conversation but its own. */
  predicate UpToDate(app: App) {
    && (app.session.Some? ==>
          var chat := app.session.value;
          && chat.peerIdentity == chat.keys.peerIdentity
          && chat.conversationId in app.stored && app.stored[chat.conversationId] == Persisted(chat))
    && (app.initiator.Some? ==> app.responder.None? && app.stored.Keys <= {app.deviceId})
  }

  lemma SaveIsUpToDate(app: App, chat: Session)
    requires chat.peerIdentity == chat.keys.peerIdentity
    requires app.initiator.Some? ==>
      app.responder.None? && app.stored.Keys <= {app.deviceId} && chat.conversationId == app.deviceId
    ensures UpToDate(Save(app, chat))
  {
  }

  lemma TellIsUpToDate(app: App, chat: Session, text: Bytes)
    requires chat.peerIdentity == chat.keys.peerIdentity
    requires app.initiator.Some? ==>
      app.responder.None? && app.stored.Keys <= {app.deviceId} && chat.conversationId == app.deviceId
    ensures Tell(app, chat, text).0.Success? ==> UpToDate(Tell(app, chat, text).1)
  {
    SaveIsUpToDate(app, SessionEncrypt(chat, app.identity, text).1);
  }

  lemma OnChatIsUpToDate(app: App, envelope: ChatEnvelope)
    requires UpToDate(app)
    ensures OnChat(app, envelope).0.Success? ==> UpToDate(OnChat(app, envelope).1)
    ensures OnChat(app, envelope).0.Failure? ==>
      OnChat(app, envelope).1 == app.(session := OnChat(app, envelope).1.session)
  {
    if SessionFor(app, envelope.conversationId).Success? {
      var chat := SessionFor(app, envelope.conversationId).value;
      assert chat.conversationId in app.stored;
      SaveIsUpToDate(app, SessionDecrypt(chat, envelope).1);
    }
  }

  lemma DirectIsUpToDate(app: App, wire: Wire, rnd: Randomness)
    requires UpToDate(app) && HandleDirect(app, wire, rnd).0.Success?
    ensures UpToDate(HandleDirect(app, wire, rnd).1)
  {
    match wire {
      case Prekey(device, message) =>
        var (result, r) := OnPrekey(app.identity, app.responder.value, message, device, rnd);
        SaveIsUpToDate(app.(responder := Some(r)), result.value.1);
      case RatchetKey(key) =>
        var (result, i) := Establish(app.initiator.value, app.deviceId, key, rnd);
        var app1 := Save(app.(initiator := Some(i)), result.value);
        SaveIsUpToDate(app.(initiator := Some(i)), result.value);
        var group := CreateSender(app.group, app.identity, rnd.groupSeed).1;
        TellIsUpToDate(app1.(group := group), result.value, app.greeting);
      case Chat(envelope) => OnChatIsUpToDate(app, envelope);
      case _ =>
    }
  }

  lemma {:induction false} RunIsUpToDate(app: App, inputs: seq<Input>)
    requires UpToDate(app) && RunNode(app, inputs).0.None?
    ensures UpToDate(RunNode(app, inputs).1)
    decreases |inputs|
  {
    if inputs == [] {
    } else {
      match inputs[0] {
        case Inbound(wire, rnd) => DirectIsUpToDate(app, wire, rnd);
        case Typed(text) =>
          if app.session.Some? {
            TellIsUpToDate(app, app.session.value, text);
          }
        case _ =>
      }
      RunIsUpToDate(Handle(app, inputs[0]).1, inputs[1..]);
    }
  }

  /** What a restart forgets: the group. Nothing is read from it or written to it before a new key. */
  lemma RestartForgetsGroup(app: App, envelope: GroupEnvelope, text: Bytes)
    requires RestartNode(app).Success?
    ensures var again := RestartNode(app).value;
      HandleGossip(again, envelope) == (None, again) && HandleGroupLine(again, text) == (None, again)
  {
  }

  /** What a restarted node does on its first connection: it asks for a bundle if and only if it is an
      initiator that has stored no session. */
  lemma RestartedNodeAsksIff(app: App)
    requires RestartNode(app).Success?
    ensures HandleConnected(RestartNode(app).value).0 ==
      if app.initiator.Some? && app.deviceId !in app.stored then [BundleRequest] else []
  {
  }

  // ---------------------------------------------------------------- conversations

  /** A chat message that arrives, or a line that is typed. */
  datatype Turn = Hear(envelope: ChatEnvelope) | Speak(text: Bytes)

  /** The plaintext read, or the messages sent. */
  datatype Answer = Heard(plaintext: Bytes) | Sent(wires: seq<Wire>)

  function TakeTurn(app: App, turn: Turn): (Result<Answer, HandshakeError>, App) {
    match turn
    case Hear(envelope) =>
      var (result, app') := OnChat(app, envelope);
      (if result.Failure? then Failure(result.error) else Success(Heard(result.value)), app')
    case Speak(text) =>
      var (result, app') := HandleLine(app, text);
      (if result.Failure? then Failure(result.error) else Success(Sent(result.value)), app')
  }

  /** The answers to a sequence of turns, up to the first error, and the store it leaves. */
  function Converse(app: App, turns: seq<Turn>): (seq<Result<Answer, HandshakeError>>, map<string, SessionState>)
    decreases |turns|
  {
    if turns == [] then ([], app.stored)
    else
      var (answer, app') := TakeTurn(app, turns[0]);
      if answer.Failure? then ([answer], app'.stored)
      else
        var (answers, stored) := Converse(app', turns[1..]);
        ([answer] + answers, stored)
  }

  predicate SameSession(a: Session, b: Session) {
    b == a.(ratchet := a.ratchet.(sessionId := b.ratchet.sessionId, associatedData := b.ratchet.associatedData))
  }

  /** Nodes with sessions that differ in identifiers only, and with equal stores. */
  predicate Twins(x: App, y: App) {
    && x.session.Some? && y.session.Some? && SameSession(x.session.value, y.session.value)
    && x.identity == y.identity && x.stored == y.stored
  }

  lemma HearAlike(x: App, y: App, e: ChatEnvelope)
    requires SessionFor(x, e.conversationId).Success? && SessionFor(y, e.conversationId).Success?
    requires SameSession(SessionFor(x, e.conversationId).value, SessionFor(y, e.conversationId).value)
    requires x.identity == y.identity && x.stored == y.stored
    ensures OnChat(x, e).0 == OnChat(y, e).0 && Twins(OnChat(x, e).1, OnChat(y, e).1)
  {
    var a, b := SessionFor(x, e.conversationId).value, SessionFor(y, e.conversationId).value;
    ReceiptIgnoresIdentifiers(a, e, b.ratchet.sessionId, b.ratchet.associatedData);
    EqualSnapshots(SessionDecrypt(a, e).1.ratchet, SessionDecrypt(b, e).1.ratchet);
  }

  lemma SpeakAlike(x: App, y: App, text: Bytes)
    requires Twins(x, y)
    ensures HandleLine(x, text).0 == HandleLine(y, text).0 && Twins(HandleLine(x, text).1, HandleLine(y, text).1)
  {
    var a, b := x.session.value, y.session.value;
    StepIgnoresIdentifiers(a.ratchet, Encrypt(text), b.ratchet.sessionId, b.ratchet.associatedData);
  }

  lemma {:induction false} ConverseAlike(x: App, y: App, turns: seq<Turn>)
    requires Twins(x, y)
    ensures Converse(x, turns) == Converse(y, turns)
    decreases |turns|
  {
    if turns == [] {
    } else {
      match turns[0] {
        case Hear(e) => HearAlike(x, y, e);
        case Speak(text) => SpeakAlike(x, y, text);
      }
      ConverseAlike(TakeTurn(x, turns[0]).1, TakeTurn(y, turns[0]).1, turns[1..]);
    }
  }

  function Lines(texts: seq<Bytes>): seq<Turn> {
    seq(|texts|, i requires 0 <= i < |texts| => Speak(texts[i]))
  }

  function Dropped(n: nat): seq<Result<Answer, HandshakeError>> {
    seq(n, i => Success(Sent([])))
  }

  /** Without a session, typed lines are dropped. */
  lemma {:induction false} LinesAreDropped(app: App, texts: seq<Bytes>, turns: seq<Turn>)
    requires app.session.None?
    ensures Converse(app, Lines(texts) + turns) == (Dropped(|texts|) + Converse(app, turns).0, Converse(app, turns).1)
    decreases |texts|
  {
    if texts == [] {
      assert Lines(texts) + turns == turns;
      assert Dropped(0) + Converse(app, turns).0 == Converse(app, turns).0;
    } else {
      var all := Lines(texts) + turns;
      assert all[0] == Speak(texts[0]) && all[1..] == Lines(texts[1..]) + turns;
      LinesAreDropped(app, texts[1..], turns);
      assert TakeTurn(app, all[0]) == (Success(Sent([])), app);
      var rest, one := Converse(app, turns).0, [Success(Sent([]))];
      assert Dropped(|texts|) == one + Dropped(|texts| - 1);
      assert one + (Dropped(|texts| - 1) + rest) == Dropped(|texts|) + rest;
    }
  }

  /** After a restart of `stopped` the node converses as `app` would have. An initiator has its session back
      at once; a responder has it back with the first chat message of the conversation, and drops the
      lines typed before. */
  predicate Continues(app: App, stopped: App, lines: seq<Bytes>, turns: seq<Turn>) {
    && RestartNode(stopped).Success?
    && var again := RestartNode(stopped).value;
    if app.initiator.Some? then Converse(again, turns) == Converse(app, turns)
    else
      FirstOf(turns, app) ==>
        Converse(again, Lines(lines) + turns) == (Dropped(|lines|) + Converse(app, turns).0, Converse(app, turns).1)
  }

  /** The turns begin with a chat message of the node's conversation. */
  predicate FirstOf(turns: seq<Turn>, app: App) {
    && turns != [] && turns[0].Hear? && app.session.Some?
    && turns[0].envelope.conversationId == app.session.value.conversationId
  }

  lemma ResumedSession(app: App, stopped: App)
    requires UpToDate(app) && app.session.Some? && stopped == app.(session := stopped.session)
    ensures RestartNode(stopped).Success?
    ensures var chat := app.session.value; var again := RestartNode(stopped).value;
      && again.identity == app.identity && again.stored == app.stored
      && again.session.Some? == app.initiator.Some?
      && SessionFor(again, chat.conversationId).Success?
      && SameSession(chat, SessionFor(again, chat.conversationId).value)
  {
    var chat := app.session.value;
    ResumeUndoesPersist(chat, Some(Persisted(chat)), chat.conversationId);
  }

  lemma RestartFromStore(app: App, stopped: App, lines: seq<Bytes>, turns: seq<Turn>)
    requires UpToDate(app) && app.session.Some? && stopped == app.(session := stopped.session)
    ensures Continues(app, stopped, lines, turns)
  {
    ResumedSession(app, stopped);
    var again := RestartNode(stopped).value;
    if app.initiator.Some? {
      ConverseAlike(app, again, turns);
    } else if FirstOf(turns, app) {
      LinesAreDropped(again, lines, turns);
      HearAlike(app, again, turns[0].envelope);
      ConverseAlike(TakeTurn(app, turns[0]).1, TakeTurn(again, turns[0]).1, turns[1..]);
    }
  }

  /** A restart goes on where the node stood. After any run of inputs without an error, the node is
      stopped, or is stopped by a chat message it cannot decrypt; over every conversation that follows,
      the new process gives the answers, and leaves the store, that the old one would have had it gone on
      before it stopped, except for the lines a responder drops before its first message. The keys a
      failed decryption spends are therefore spent in memory only: the failure is forgotten. */
  lemma RestartContinues(start: App, inputs: seq<Input>, bad: ChatEnvelope, lines: seq<Bytes>, turns: seq<Turn>)
    requires UpToDate(start) && RunNode(start, inputs).0.None? && RunNode(start, inputs).1.session.Some?
    ensures var app := RunNode(start, inputs).1;
      && Continues(app, app, lines, turns)
      && (OnChat(app, bad).0.Failure? ==> Continues(app, OnChat(app, bad).1, lines, turns))
  {
    RunIsUpToDate(start, inputs);
    var app := RunNode(start, inputs).1;
    RestartFromStore(app, app, lines, turns);
    if OnChat(app, bad).0.Failure? {
      OnChatIsUpToDate(app, bad);
      RestartFromStore(app, OnChat(app, bad).1, lines, turns);
    }
  }
}
