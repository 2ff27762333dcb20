/** The handshake completes: without losses every run reaches a state in which both nodes hold a session,
    the greeting has been read and the group key is in use. */
module HandshakeLive {
  import opened Results
  import opened Terms
  import opened Ratchet
  import opened SkipLoop
  import opened Pqxdh
  import opened Session
  import opened Group
  import opened Node
  import opened Handshake

  // ---------------------------------------------------------------- stages

  predicate HasGroupKey(q: seq<Wire>) {
    exists i :: 0 <= i < |q| && q[i].GroupKey?
  }

  /** A distribution of the sender key Alice holds. */
  predicate Distributes(alice: App, d: GroupKeyDistribution) {
    && alice.group.sender.Some? && alice.group.sender.value.messageIndex <= U64_MAX
    && d.chainKey == alice.group.sender.value.chainKey
  }

  /** The second node reads the group with the key the first writes with. */
  predicate KeyedTo(alice: App, bob: App) {
    && alice.group.sender.Some? && alice.group.sender.value.messageIndex <= U64_MAX
    && bob.group.receiver.Some? && bob.group.receiver.value.chainKey == alice.group.sender.value.chainKey
    && bob.group.peerIdentity == Some(Public(alice.identity))
  }

  predicate Keyed(s: Net) {
    KeyedTo(s.alice, s.bob)
  }

  /** Bob has read one message, the first, and stored no keys on the way. */
  predicate Greeted(s: Net) {
    && s.bob.session.Some? && s.bob.session.value.ratchet.receiving.chainKey.Some?
    && Index(s.bob.session.value.ratchet) == 1 && Stored(s.bob.session.value.ratchet) == 0
  }

  /** The group key and the greeting are each in flight or have arrived. */
  predicate Arriving(s: Net) {
    && s.alice.group.sender.Some?
    && (forall i :: 0 <= i < |s.toBob| && s.toBob[i].GroupKey? ==> Distributes(s.alice, s.toBob[i].distribution))
    && (HasGroupKey(s.toBob) || Keyed(s))
    && (HasChat(s.toBob) || Greeted(s))
  }

  /** The seven stages of a handshake without losses, and the stage before its start. */
  ghost predicate Stage(s: Net, k: nat) {
    && Roles(s)
    && (k == 0 ==> BeforePrekey(s) && !s.alice.started)
    && (k == 1 ==> BeforePrekey(s) && s.alice.started && s.toBob == [BundleRequest])
    && (k == 2 ==> BeforePrekey(s) && s.alice.started && s.toAlice != [])
    && (k == 3 ==> PrekeySent(s) && s.toBob != [])
    && (k == 4 ==> Answered(s) && s.toAlice != [])
    && (k >= 5 ==> Established(s) && |s.toBob| + k == 7 && Arriving(s))
  }

  lemma AnsweringRequest(s: Net, rnd: Randomness)
    requires Stage(s, 1)
    ensures Stage(NetStep(s, DeliverWire(false, 0, rnd)), 2)
  {
    var s' := NetStep(s, DeliverWire(false, 0, rnd));
    assert s'.toAlice == [BundleReply(OwnBundle(s.bob.identity, s.bob.responder.value.prekey))] && s'.toBob == [];
  }

  lemma Establishing(s: Net, rnd: Randomness)
    requires Stage(s, 4)
    ensures Stage(NetStep(s, DeliverWire(true, 0, rnd)), 5)
  {
    RatchetKeyKeeps(s, rnd);
    var s' := NetStep(s, DeliverWire(true, 0, rnd));
    EstablishingKeysGroup(s, rnd);
    assert HasGroupKey(s'.toBob) && HasChat(s'.toBob);
  }

  /** What Alice puts in flight for the group is the key she writes with. */
  lemma EstablishingKeysGroup(s: Net, rnd: Randomness)
    requires Roles(s) && Answered(s) && s.toAlice != []
    ensures var s' := NetStep(s, DeliverWire(true, 0, rnd));
      && s'.alice.group.sender.Some?
      && forall i :: 0 <= i < |s'.toBob| && s'.toBob[i].GroupKey? ==> Distributes(s'.alice, s'.toBob[i].distribution)
  {
    var (out, alice) := HandleDirect(s.alice, s.toAlice[0], rnd);
    var d := CreateSender(s.alice.group, s.alice.identity, rnd.groupSeed).0;
    assert out.Success? ==> |out.value| == 2 && out.value[0] == GroupKey(d);
  }

  lemma GroupKeyArrives(s: Net, i: nat, rnd: Randomness)
    requires Roles(s) && Established(s) && i < |s.toBob| && s.toBob[i].GroupKey?
    requires Distributes(s.alice, s.toBob[i].distribution)
    ensures var s' := NetStep(s, DeliverWire(false, i, rnd));
      Keyed(s') && s'.alice == s.alice && s'.bob.session == s.bob.session
  {
    var secret, own, peer :| EstablishedFrom(s, secret, own, peer);
    SessionsAgree(s, secret, own, peer);
  }

  lemma GreetingArrives(s: Net, i: nat, rnd: Randomness)
    requires Roles(s) && Established(s) && i < |s.toBob| && s.toBob[i].Chat?
    ensures var s' := NetStep(s, DeliverWire(false, i, rnd));
      Greeted(s') && s'.alice == s.alice && s'.bob.group == s.bob.group
    ensures OnChat(s.bob, s.toBob[i].envelope).0 == Success(s.alice.greeting)
  {
    var secret, own, peer :| EstablishedFrom(s, secret, own, peer);
    GreetingIsRead(s, secret, own, peer);
    EstablishedHandling(s, s.toBob[i], rnd, secret, own, peer);
    ReadGreeting(s, secret, own, peer);
  }

  /** Reading the greeting leaves Bob's ratchet one message on. */
  lemma ReadGreeting(s: Net, secret: Key, own: Scalar, peer: Scalar)
    ensures var greeting := SessionEncrypt(AliceSession(s, secret, own, peer), s.alice.identity, s.alice.greeting).0;
      && greeting.Success?
      && var read := SessionDecrypt(BobSession(s, secret, peer), greeting.value).1.ratchet;
      read.receiving.chainKey.Some? && Index(read) == 1 && Stored(read) == 0
  {
  }

  lemma RemovedWires(q: seq<Wire>, i: nat)
    requires i < |q|
    ensures HasGroupKey(q) && !q[i].GroupKey? ==> HasGroupKey(Remove(q, i))
    ensures HasChat(q) && !q[i].Chat? ==> HasChat(Remove(q, i))
    ensures forall w :: w in Remove(q, i) ==> w in q
  {
    forall k | 0 <= k < |q| && k != i
      ensures q[k] in Remove(q, i)
    {
      assert Remove(q, i)[if k < i then k else k - 1] == q[k];
    }
  }

  lemma StillDistributed(s: Net, s': Net, i: nat)
    requires Arriving(s) && i < |s.toBob| && s'.toBob == Remove(s.toBob, i) && s'.alice == s.alice
    ensures forall j :: 0 <= j < |s'.toBob| && s'.toBob[j].GroupKey? ==> Distributes(s'.alice, s'.toBob[j].distribution)
  {
    RemovedWires(s.toBob, i);
    forall j | 0 <= j < |s'.toBob| && s'.toBob[j].GroupKey?
      ensures Distributes(s'.alice, s'.toBob[j].distribution)
    {
      assert s'.toBob[j] in s.toBob;
    }
  }

  lemma ArrivingKeeps(s: Net, i: nat, rnd: Randomness)
    requires Roles(s) && Established(s) && Arriving(s) && i < |s.toBob|
    ensures Arriving(NetStep(s, DeliverWire(false, i, rnd)))
  {
    var s' := NetStep(s, DeliverWire(false, i, rnd));
    assert s'.toBob == Remove(s.toBob, i) by {
      EstablishedDeliveryKeeps(s, i, rnd);
    }
    RemovedWires(s.toBob, i);
    OnlyTwoKinds(s, i);
    if s.toBob[i].GroupKey? {
      GroupKeyArrives(s, i, rnd);
    } else {
      GreetingArrives(s, i, rnd);
    }
    StillDistributed(s, s', i);
  }

  lemma OnlyTwoKinds(s: Net, i: nat)
    requires Established(s) && i < |s.toBob|
    ensures s.toBob[i].GroupKey? || s.toBob[i].Chat?
  {
    var secret, own, peer :| EstablishedFrom(s, secret, own, peer);
  }

  /** Each delivery takes the handshake one stage on, whatever is delivered. */
  lemma DeliveryAdvances(s: Net, k: nat, atAlice: bool, i: nat, rnd: Randomness)
    requires Stage(s, k) && NetEnabled(s, DeliverWire(atAlice, i, rnd))
    ensures 1 <= k < 7 && Stage(NetStep(s, DeliverWire(atAlice, i, rnd)), k + 1)
  {
    if k == 1 {
      AnsweringRequest(s, rnd);
    } else if k == 2 {
      BundleReplyKeeps(s, rnd);
    } else if k == 3 {
      PrekeyKeeps(s, rnd);
    } else if k == 4 {
      Establishing(s, rnd);
    } else if k >= 5 {
      EstablishedDeliveryKeeps(s, i, rnd);
      ArrivingKeeps(s, i, rnd);
    }
  }

  /** Something is in flight at every stage but the first and the last. */
  lemma InFlight(s: Net, k: nat)
    requires Stage(s, k)
    ensures k <= 7
    ensures s.toAlice == [] && s.toBob == [] <==> k == 0 || k == 7
    ensures 1 <= k < 7 ==> if k == 2 || k == 4 then s.toAlice != [] else s.toBob != []
  {
  }

  lemma ConnectStarts(s: Net, k: nat, atAlice: bool)
    requires Stage(s, k)
    ensures Stage(NetStep(s, Connect(atAlice)), if k == 0 && atAlice then 1 else k)
  {
    var s' := NetStep(s, Connect(atAlice));
    if k == 0 && atAlice {
      assert s'.toBob == [BundleRequest];
    } else {
      assert s' == s;
    }
  }

  // ---------------------------------------------------------------- whole runs

  predicate NoLoss(events: seq<NetEvent>) {
    forall i :: 0 <= i < |events| ==> !events[i].Lose?
  }

  function Deliveries(events: seq<NetEvent>): nat {
    if events == [] then 0 else (if events[0].DeliverWire? then 1 else 0) + Deliveries(events[1..])
  }

  function NextStage(k: nat, e: NetEvent): nat {
    if e.DeliverWire? then k + 1 else if k == 0 && e == Connect(true) then 1 else k
  }

  lemma StepReachesStage(s: Net, k: nat, e: NetEvent)
    requires Stage(s, k) && NetEnabled(s, e) && !e.Lose?
    ensures Stage(NetStep(s, e), NextStage(k, e)) && (e.DeliverWire? ==> k >= 1)
  {
    match e {
      case Connect(atAlice) => ConnectStarts(s, k, atAlice);
      case DeliverWire(atAlice, i, rnd) => DeliveryAdvances(s, k, atAlice, i, rnd);
    }
  }

  function StageAfter(k: nat, events: seq<NetEvent>): nat
    decreases |events|
  {
    if events == [] then k else StageAfter(NextStage(k, events[0]), events[1..])
  }

  /** Nothing is delivered before the handshake has started. */
  predicate StartsFirst(k: nat, events: seq<NetEvent>)
    decreases |events|
  {
    events != [] ==> (events[0].DeliverWire? ==> k >= 1) && StartsFirst(NextStage(k, events[0]), events[1..])
  }

  lemma {:induction false} RunReachesStage(s: Net, k: nat, events: seq<NetEvent>)
    requires Stage(s, k) && ValidNetRun(s, events) && NoLoss(events)
    ensures Stage(AfterNet(s, events), StageAfter(k, events)) && StartsFirst(k, events)
    decreases |events|
  {
    if events == [] {
    } else {
      StepReachesStage(s, k, events[0]);
      RunReachesStage(NetStep(s, events[0]), NextStage(k, events[0]), events[1..]);
    }
  }

  lemma {:induction false} StagesCount(k: nat, events: seq<NetEvent>)
    requires StartsFirst(k, events) && NoLoss(events) && (k == 0 ==> Connect(true) in events)
    ensures StageAfter(k, events) == (if k == 0 then 1 else k) + Deliveries(events)
    decreases |events|
  {
    if events == [] {
    } else {
      StagesCount(NextStage(k, events[0]), events[1..]);
    }
  }

  lemma FreshIsStageZero(s: Net)
    requires FreshNet(s)
    ensures Stage(s, 0)
  {
  }

  /** A finished handshake: both nodes hold a session, Bob has read the greeting, and Bob reads the group with
      the key Alice writes with. */
  predicate Complete(s: Net) {
    s.alice.session.Some? && Greeted(s) && Keyed(s)
  }

  /** The handshake completes. In every fresh run without losses in which Alice's node has connected, at most
      six messages are ever delivered; as long as fewer were, another one is in flight; and once there is
      none, the handshake is finished. */
  lemma HandshakeCompletes(s: Net, events: seq<NetEvent>)
    requires FreshNet(s) && ValidNetRun(s, events) && NoLoss(events) && Connect(true) in events
    ensures var t := AfterNet(s, events);
      && Deliveries(events) <= 6
      && (t.toAlice == [] && t.toBob == [] <==> Deliveries(events) == 6)
      && (Deliveries(events) >= 4 ==> t.alice.session.Some? && t.bob.session.Some?)
      && (Deliveries(events) == 6 ==> Complete(t))
  {
    FreshIsStageZero(s);
    RunReachesStage(s, 0, events);
    StagesCount(0, events);
    InFlight(AfterNet(s, events), 1 + Deliveries(events));
  }

  /** The messages in order, each handled under its own randomness. */
  function Schedule(rnd: seq<Randomness>): seq<NetEvent>
    requires |rnd| == 6
  {
    [Connect(true),
     DeliverWire(false, 0, rnd[0]), DeliverWire(true, 0, rnd[1]), DeliverWire(false, 0, rnd[2]),
     DeliverWire(true, 0, rnd[3]), DeliverWire(false, 0, rnd[4]), DeliverWire(false, 0, rnd[5])]
  }

  lemma {:induction false} ScheduleIsEnabled(s: Net, rnd: seq<Randomness>, k: nat)
    requires |rnd| == 6 && 1 <= k <= 7 && Stage(s, k)
    ensures ValidNetRun(s, Schedule(rnd)[k..])
    decreases 7 - k
  {
    if k == 7 {
    } else {
      var rest := Schedule(rnd)[k..];
      InFlight(s, k);
      DeliveryAdvances(s, k, rest[0].atAlice, 0, rest[0].rnd);
      ScheduleIsEnabled(NetStep(s, rest[0]), rnd, k + 1);
      assert rest[1..] == Schedule(rnd)[k + 1..];
    }
  }

  /** Such a run exists from every fresh start, under any randomness. */
  lemma HandshakeRunExists(s: Net, rnd: seq<Randomness>)
    requires FreshNet(s) && |rnd| == 6
    ensures ValidNetRun(s, Schedule(rnd)) && Complete(AfterNet(s, Schedule(rnd)))
  {
    FreshIsStageZero(s);
    ConnectStarts(s, 0, true);
    var all := Schedule(rnd);
    ScheduleIsEnabled(NetStep(s, all[0]), rnd, 1);
    assert all[0] == Connect(true);
    DeliveriesOfSchedule(rnd);
    HandshakeCompletes(s, all);
  }

  lemma DeliveriesOfSchedule(rnd: seq<Randomness>)
    requires |rnd| == 6
    ensures Deliveries(Schedule(rnd)) == 6 && NoLoss(Schedule(rnd)) && Connect(true) in Schedule(rnd)
  {
    var all := Schedule(rnd);
    assert all[0] == Connect(true);
    assert all[1..][1..] == all[2..] && all[2..][1..] == all[3..] && all[3..][1..] == all[4..];
    assert all[4..][1..] == all[5..] && all[5..][1..] == all[6..] && all[6..][1..] == [];
    assert Deliveries(all[6..]) == 1;
    assert Deliveries(all[4..]) == 3;
    assert Deliveries(all[2..]) == 5;
  }

  // ---------------------------------------------------------------- what has been read

  /** In every fresh run, losses included, a greeting still in flight is read with the text Alice wrote. */
  lemma GreetingInFlightIsRead(s: Net, events: seq<NetEvent>, i: nat)
    requires FreshNet(s) && ValidNetRun(s, events)
    requires i < |AfterNet(s, events).toBob| && AfterNet(s, events).toBob[i].Chat?
    ensures var t := AfterNet(s, events);
      OnChat(t.bob, t.toBob[i].envelope).0 == Success(s.alice.greeting)
  {
    NetRunKeeps(s, events);
    NetRunFrame(s, events);
    var t := AfterNet(s, events);
    GreetingArrives(t, i, Randomness(HybridPrivate(0, NoSalt), Coins(0, 0, 0, 0, 0), 0, NoSalt));
  }

  /** One line for the group: the second node reads it if and only if the two belong to one group, and can
      then read the next. */
  lemma GroupLineIsRead(alice: App, bob: App, text: Bytes)
    requires KeyedTo(alice, bob)
    ensures var (published, alice') := HandleGroupLine(alice, text);
      && published.Some?
      && var (heard, bob') := HandleGossip(bob, published.value);
      && heard == (if alice.group.groupId == bob.group.groupId then Some(text) else None)
      && (heard.Some? ==> KeyedTo(alice', bob') && alice'.group.groupId == bob'.group.groupId)
  {
    WrapAround(alice.group.sender.value.messageIndex);
  }

  /** What the second node reads when the first types lines for the group and each arrives in its turn. */
  function GroupTalk(alice: App, bob: App, texts: seq<Bytes>): seq<Option<Bytes>>
    decreases |texts|
  {
    if texts == [] then []
    else
      var (published, alice') := HandleGroupLine(alice, texts[0]);
      if published.None? then [None] + GroupTalk(alice', bob, texts[1..])
      else
        var (heard, bob') := HandleGossip(bob, published.value);
        [heard] + GroupTalk(alice', bob', texts[1..])
  }

  lemma {:induction false} GroupTalkIsRead(alice: App, bob: App, texts: seq<Bytes>)
    requires KeyedTo(alice, bob) && alice.group.groupId == bob.group.groupId
    ensures GroupTalk(alice, bob, texts) == seq(|texts|, i requires 0 <= i < |texts| => Some(texts[i]))
    decreases |texts|
  {
    if texts == [] {
    } else {
      GroupLineIsRead(alice, bob, texts[0]);
      var (published, alice') := HandleGroupLine(alice, texts[0]);
      GroupTalkIsRead(alice', HandleGossip(bob, published.value).1, texts[1..]);
    }
  }

  /** Group chat after the handshake. After every fresh run without losses that delivered all six messages,
      whatever Alice's node then publishes to their common group, Bob's node reads in turn. */
  lemma HandshakeThenGroupTalk(s: Net, events: seq<NetEvent>, texts: seq<Bytes>)
    requires FreshNet(s) && ValidNetRun(s, events) && NoLoss(events) && Connect(true) in events
    requires Deliveries(events) == 6 && s.alice.group.groupId == s.bob.group.groupId
    ensures var t := AfterNet(s, events);
      GroupTalk(t.alice, t.bob, texts) == seq(|texts|, i requires 0 <= i < |texts| => Some(texts[i]))
  {
    HandshakeCompletes(s, events);
    NetRunFrame(s, events);
    GroupTalkIsRead(AfterNet(s, events).alice, AfterNet(s, events).bob, texts);
  }

  // ---------------------------------------------------------------- what the drivers hold

  /** The drivers have recorded whom the sessions are with, and the initiator's output is spent. */
  predicate DriversAgree(s: Net)
    requires Roles(s)
  {
    && (s.alice.session.Some? ==>
          s.alice.initiator.value == Initiator(Some(s.alice.session.value.peerIdentity), None))
    && (s.bob.session.Some? ==> s.bob.responder.value.peerIdentity == Some(s.bob.session.value.peerIdentity))
  }

  lemma HandlerKeepsDrivers(s: Net, e: NetEvent)
    requires Phases(s) && NetEnabled(s, e) && DriversAgree(s)
    requires Roles(NetStep(s, e))
    ensures DriversAgree(NetStep(s, e))
  {
    if Established(s) {
      if e.DeliverWire? {
        OnlyTwoKinds(s, e.i);
      }
    }
  }

  lemma {:induction false} RunKeepsDrivers(s: Net, events: seq<NetEvent>)
    requires Phases(s) && ValidNetRun(s, events) && DriversAgree(s)
    ensures Phases(AfterNet(s, events)) && DriversAgree(AfterNet(s, events))
    decreases |events|
  {
    if events == [] {
    } else {
      NetStepKeeps(s, events[0]);
      HandlerKeepsDrivers(s, events[0]);
      RunKeepsDrivers(NetStep(s, events[0]), events[1..]);
    }
  }

  /** In every fresh run, losses included, a node with a session has recorded its peer in the driver, and the
      initiator has no key-agreement output left. */
  lemma DriversFollowSessions(s: Net, events: seq<NetEvent>)
    requires FreshNet(s) && ValidNetRun(s, events)
    ensures Roles(AfterNet(s, events)) && DriversAgree(AfterNet(s, events))
  {
    RunKeepsDrivers(s, events);
  }
}
