/** Two parties over a network that loses, reorders, replays and injects messages, with process
    restarts: the Double Ratchet as a transition system. */
module TwoParty {
  import opened Results
  import opened Terms
  import opened Ratchet
  import opened SkipLoop
  import opened Channel
  import opened Snapshot

  datatype Config = Config(root: Key, aliceKey: Scalar, bobKey: Scalar, sessionId: string, aad: Bytes)

  // ---------------------------------------------------------------- the key schedule

  function SharedSecret(c: Config): Key { DiffieHellman(c.aliceKey, PublicOf(c.bobKey)) }

  /** The root sequence R0, R1, R2 that both sides follow. */
  function RootAt(c: Config, i: nat): Key {
    if i == 0 then c.root else NextRoot(RootAt(c, i - 1), SharedSecret(c))
  }

  /** The first key of the chain each side writes on: Alice's comes from R0, Bob's from R1. */
  function ChainOf(c: Config, writer: Side): Key {
    FirstChain(RootAt(c, if writer.Alice? then 0 else 1), SharedSecret(c)).key
  }

  // ---------------------------------------------------------------- the system

  datatype Side = Alice | Bob {
    function Other(): Side {
      if Alice? then Bob else Alice
    }
  }

  /** One party: its ratchet, what it encrypted and put on the wire, which of the peer's messages
      were handed to it, and whether it has taken its DH step. */
  datatype Party = Party(
    ratchet: Ratchet,
    plaintexts: seq<Bytes>,
    wire: seq<Message>,
    seen: set<nat>,
    stepped: bool)

  /** `honest` says that no replay or injection so far has changed the ratchet it was fed to. */
  datatype System = System(alice: Party, bob: Party, honest: bool) {
    function Of(side: Side): Party {
      if side.Alice? then alice else bob
    }

    function With(side: Side, p: Party): System {
      if side.Alice? then this.(alice := p) else this.(bob := p)
    }
  }

  datatype Event =
    | Send(who: Side, plaintext: Bytes)
    | TakeDhStep(who: Side)
    | Deliver(to: Side, n: nat)
    | Inject(to: Side, box: Box<Header>, header: Header)
    | RestartProcess(who: Side)

  function KeyOf(c: Config, side: Side): Scalar {
    if side.Alice? then c.aliceKey else c.bobKey
  }

  function Initial(c: Config): System {
    System(
      Party(InitInitiator(c.sessionId, c.root, c.aliceKey, PublicOf(c.bobKey), c.aad), [], [], {}, false),
      Party(InitResponder(c.sessionId, c.root, c.bobKey, c.aad), [], [], {}, false),
      true)
  }

  ghost predicate Enabled(c: Config, s: System, e: Event) {
    match e
    case Send(_, _) => true
    case TakeDhStep(who) => !s.Of(who).stepped
    case Deliver(to, n) => n < |s.Of(to.Other()).wire| && n !in s.Of(to).seen
    case Inject(to, box, _) =>
      Authentic(box, ChainOf(c, to.Other()), PublicOf(KeyOf(c, to.Other())), s.Of(to.Other()).plaintexts)
    case RestartProcess(_) => true
  }

  function Step(c: Config, s: System, e: Event): System
    requires e.Deliver? ==> e.n < |s.Of(e.to.Other()).wire|
  {
    match e
    case Send(who, plaintext) =>
      var p := s.Of(who);
      var (result, r) := EncryptStep(p.ratchet, plaintext);
      if result.Failure? then s.With(who, p.(ratchet := r))
      else
        s.With(who, p.(ratchet := r, plaintexts := p.plaintexts + [plaintext], wire := p.wire + [result.value]))
    case TakeDhStep(who) =>
      var p := s.Of(who);
      s.With(who, p.(ratchet := DhStep(p.ratchet, PublicOf(KeyOf(c, who.Other()))).1, stepped := true))
    case Deliver(to, n) =>
      var p := s.Of(to);
      var (box, header) := s.Of(to.Other()).wire[n];
      s.With(to, p.(ratchet := DecryptStep(p.ratchet, box, header).1, seen := p.seen + {n}))
    case Inject(to, box, header) =>
      var p := s.Of(to);
      var r := DecryptStep(p.ratchet, box, header).1;
      s.With(to, p.(ratchet := r)).(honest := s.honest && r == p.ratchet)
    case RestartProcess(who) =>
      var p := s.Of(who);
      s.With(who, p.(ratchet := Restarted(p.ratchet, "presidium-session", [])))
  }

  ghost predicate ValidRun(c: Config, s: System, events: seq<Event>)
    decreases |events|
  {
    events != [] ==> Enabled(c, s, events[0]) && ValidRun(c, Step(c, s, events[0]), events[1..])
  }

  ghost function After(c: Config, s: System, events: seq<Event>): System
    requires ValidRun(c, s, events)
    decreases |events|
  {
    if events == [] then s else After(c, Step(c, s, events[0]), events[1..])
  }

  // ---------------------------------------------------------------- the invariant

  /** What a party wrote is the chain of its direction, position by position. */
  predicate WritesOn(p: Party, chain: Key, author: X25519Public) {
    && |p.wire| == |p.plaintexts|
    && (forall i :: 0 <= i < |p.wire| ==> p.wire[i] == MessageAt(chain, author, i, p.plaintexts[i]))
    && match p.ratchet.sending.chainKey
       case None => p.wire == []
       case Some(ck) => ck == ChainKey(ChainFrom(chain, ChainKeyInfo, |p.wire|), |p.wire|)
  }

  /** What a party reads with is the peer's chain, once it has taken its DH step. */
  predicate ReadsOn(p: Party, chain: Key, honest: bool, peerSent: nat) {
    && p.stepped == p.ratchet.receiving.chainKey.Some?
    && OnChain(p.ratchet.receiving, chain)
    && (honest ==> Covered(p.ratchet.receiving, p.seen))
    && (honest && peerSent <= MAX_SKIP_MESSAGES + 1 ==> Stored(p.ratchet) <= Index(p.ratchet))
  }

  predicate KeySlots(c: Config, s: System, side: Side) {
    var r := s.Of(side).ratchet;
    && r.sending.ourKey == Some(KeyOf(c, side))
    && r.receiving.ourKey.None?
    && r.receiving.theirPublic == (if side.Alice? then Some(PublicOf(c.bobKey)) else None)
    && r.sending.theirPublic ==
         (if side.Alice? || s.bob.stepped then Some(PublicOf(KeyOf(c, side.Other()))) else None)
  }

  /** How far along R0, R1, R2 a side is: one step per chain it holds. */
  function RootIndex(p: Party): nat {
    (if p.ratchet.sending.chainKey.Some? then 1 else 0) + (if p.ratchet.receiving.chainKey.Some? then 1 else 0)
  }

  predicate SideAgrees(c: Config, s: System, side: Side) {
    && KeySlots(c, s, side)
    && WritesOn(s.Of(side), ChainOf(c, side), PublicOf(KeyOf(c, side)))
    && ReadsOn(s.Of(side), ChainOf(c, side.Other()), s.honest, |s.Of(side.Other()).wire|)
    && s.Of(side).ratchet.root == RootAt(c, RootIndex(s.Of(side)))
  }

  predicate Agreement(c: Config, s: System) {
    && SideAgrees(c, s, Alice) && SideAgrees(c, s, Bob)
    && s.alice.ratchet.sending.chainKey.Some?
    && (s.bob.ratchet.sending.chainKey.Some? ==> s.bob.stepped)
  }

  lemma InitialAgrees(c: Config)
    ensures Agreement(c, Initial(c))
  {
    assert RootAt(c, 1) == NextRoot(c.root, SharedSecret(c));
  }

  /** A successful encryption extends the writer's chain by the next message of its direction. */
  lemma SendOutcome(c: Config, s: System, who: Side, plaintext: Bytes)
    requires Agreement(c, s)
    ensures var p := s.Of(who); var (result, r) := EncryptStep(p.ratchet, plaintext);
      if who.Bob? && !s.bob.stepped then result == Failure(NoPeerKey) && r == p.ratchet
      else
        && result == Success(MessageAt(ChainOf(c, who), PublicOf(KeyOf(c, who)), |p.wire|, plaintext))
        && r.sending == p.ratchet.sending.(chainKey := r.sending.chainKey)
        && r.sending.chainKey == Some(ChainKey(ChainFrom(ChainOf(c, who), ChainKeyInfo, |p.wire| + 1), |p.wire| + 1))
        && r.receiving == p.ratchet.receiving
        && r.root == RootAt(c, 1 + if p.stepped then 1 else 0)
  {
    assert KeySlots(c, s, who) && WritesOn(s.Of(who), ChainOf(c, who), PublicOf(KeyOf(c, who)));
    assert ReadsOn(s.Of(who), ChainOf(c, who.Other()), s.honest, |s.Of(who.Other()).wire|);
    DiffieHellmanAgrees(c.aliceKey, c.bobKey, ZeroPoint);
  }

  lemma WritesOnExtends(p: Party, p': Party, chain: Key, author: X25519Public, plaintext: Bytes)
    requires WritesOn(p, chain, author)
    requires p'.wire == p.wire + [MessageAt(chain, author, |p.wire|, plaintext)]
    requires p'.plaintexts == p.plaintexts + [plaintext]
    requires p'.ratchet.sending.chainKey == Some(ChainKey(ChainFrom(chain, ChainKeyInfo, |p.wire| + 1), |p.wire| + 1))
    ensures WritesOn(p', chain, author)
  {
  }

  lemma SendKeepsWriter(c: Config, s: System, who: Side, plaintext: Bytes)
    requires Agreement(c, s) && (who.Alice? || s.bob.stepped)
    ensures SideAgrees(c, Step(c, s, Send(who, plaintext)), who)
  {
    SendOutcome(c, s, who, plaintext);
    assert SideAgrees(c, s, who);
    var s' := Step(c, s, Send(who, plaintext));
    WritesOnExtends(s.Of(who), s'.Of(who), ChainOf(c, who), PublicOf(KeyOf(c, who)), plaintext);
  }

  lemma SendKeepsReader(c: Config, s: System, who: Side, plaintext: Bytes)
    requires Agreement(c, s) && (who.Alice? || s.bob.stepped)
    ensures SideAgrees(c, Step(c, s, Send(who, plaintext)), who.Other())
  {
    SendOutcome(c, s, who, plaintext);
    assert SideAgrees(c, s, who.Other());
  }

  lemma SendKeeps(c: Config, s: System, who: Side, plaintext: Bytes)
    requires Agreement(c, s)
    ensures Agreement(c, Step(c, s, Send(who, plaintext)))
  {
    SendOutcome(c, s, who, plaintext);
    if who.Alice? || s.bob.stepped {
      SendKeepsWriter(c, s, who, plaintext);
      SendKeepsReader(c, s, who, plaintext);
    } else {
      assert Step(c, s, Send(who, plaintext)) == s;
    }
  }

  /** Steps that change one party's ratchet and nothing that was written. */
  lemma RatchetChangeKeeps(c: Config, s: System, s': System, who: Side)
    requires Agreement(c, s)
    requires s'.Of(who.Other()) == s.Of(who.Other()) && (s'.honest ==> s.honest)
    requires s'.Of(who).plaintexts == s.Of(who).plaintexts && s'.Of(who).wire == s.Of(who).wire
    requires s'.Of(who).ratchet.sending.chainKey == s.Of(who).ratchet.sending.chainKey
    requires KeySlots(c, s', who)
    requires s.Of(who).stepped ==> s'.Of(who).stepped
    requires ReadsOn(s'.Of(who), ChainOf(c, who.Other()), s'.honest, |s.Of(who.Other()).wire|)
    requires s'.Of(who).ratchet.root == RootAt(c, RootIndex(s'.Of(who)))
    ensures Agreement(c, s')
  {
    assert SideAgrees(c, s, who) && SideAgrees(c, s, who.Other());
    assert SideAgrees(c, s', who) && SideAgrees(c, s', who.Other());
  }

  lemma DhStepKeeps(c: Config, s: System, who: Side)
    requires Agreement(c, s) && !s.Of(who).stepped
    ensures Agreement(c, Step(c, s, TakeDhStep(who)))
  {
    assert KeySlots(c, s, who);
    assert ReadsOn(s.Of(who), ChainOf(c, who.Other()), s.honest, |s.Of(who.Other()).wire|);
    DiffieHellmanAgrees(c.aliceKey, c.bobKey, ZeroPoint);
    RatchetChangeKeeps(c, s, Step(c, s, TakeDhStep(who)), who);
  }

  lemma DecryptTouchesReceivingOnly(r: Ratchet, box: Box<Header>, header: Header)
    ensures var r' := DecryptStep(r, box, header).1;
      && r' == r.(receiving := r'.receiving)
      && r'.receiving.ourKey == r.receiving.ourKey
      && r'.receiving.theirPublic == r.receiving.theirPublic
      && r'.receiving.chainKey.Some? == r.receiving.chainKey.Some?
  {
  }

  /** The verdict on a delivery of message `n` to a party. */
  function Verdict(s: System, to: Side, n: nat): Result<Bytes, RatchetError>
    requires n < |s.Of(to.Other()).wire|
  {
    var (box, header) := s.Of(to.Other()).wire[n];
    DecryptStep(s.Of(to).ratchet, box, header).0
  }

  lemma DeliverKeeps(c: Config, s: System, to: Side, n: nat)
    requires Agreement(c, s) && Enabled(c, s, Deliver(to, n))
    ensures Agreement(c, Step(c, s, Deliver(to, n)))
  {
    var p, q := s.Of(to), s.Of(to.Other());
    assert KeySlots(c, s, to);
    assert WritesOn(q, ChainOf(c, to.Other()), PublicOf(KeyOf(c, to.Other())));
    assert ReadsOn(p, ChainOf(c, to.Other()), s.honest, |q.wire|);
    var (box, header) := q.wire[n];
    DecryptTouchesReceivingOnly(p.ratchet, box, header);
    DecryptStaysOnChain(p.ratchet, box, header, ChainOf(c, to.Other()));
    if s.honest && p.stepped {
      FirstDelivery(p.ratchet, ChainOf(c, to.Other()), PublicOf(KeyOf(c, to.Other())), n, q.plaintexts[n], p.seen);
    }
    RatchetChangeKeeps(c, s, Step(c, s, Deliver(to, n)), to);
  }

  /** The exact verdict on any delivery, first or repeated, in any state that agrees. */
  lemma AgreedVerdict(c: Config, s: System, to: Side, n: nat)
    requires Agreement(c, s) && n < |s.Of(to.Other()).wire|
    ensures |s.Of(to.Other()).plaintexts| == |s.Of(to.Other()).wire|
    ensures Verdict(s, to, n) == Reading(s.Of(to).ratchet, n, s.Of(to.Other()).plaintexts[n])
    ensures s.Of(to).ratchet.receiving.chainKey.Some? <==> s.Of(to).stepped
    ensures !s.Of(to).stepped ==> s.Of(to).ratchet.receiving.skipped == []
  {
    var p, q := s.Of(to), s.Of(to.Other());
    assert WritesOn(q, ChainOf(c, to.Other()), PublicOf(KeyOf(c, to.Other())));
    assert ReadsOn(p, ChainOf(c, to.Other()), s.honest, |q.wire|);
    ExactVerdict(p.ratchet, ChainOf(c, to.Other()), PublicOf(KeyOf(c, to.Other())), n, q.plaintexts[n]);
  }

  lemma InjectKeeps(c: Config, s: System, to: Side, box: Box<Header>, header: Header)
    requires Agreement(c, s)
    ensures Agreement(c, Step(c, s, Inject(to, box, header)))
  {
    var p := s.Of(to);
    assert KeySlots(c, s, to);
    assert ReadsOn(p, ChainOf(c, to.Other()), s.honest, |s.Of(to.Other()).wire|);
    DecryptTouchesReceivingOnly(p.ratchet, box, header);
    DecryptStaysOnChain(p.ratchet, box, header, ChainOf(c, to.Other()));
    RatchetChangeKeeps(c, s, Step(c, s, Inject(to, box, header)), to);
  }

  lemma RestartKeeps(c: Config, s: System, who: Side)
    requires Agreement(c, s)
    ensures Agreement(c, Step(c, s, RestartProcess(who)))
  {
    assert KeySlots(c, s, who);
    assert ReadsOn(s.Of(who), ChainOf(c, who.Other()), s.honest, |s.Of(who.Other()).wire|);
    RatchetChangeKeeps(c, s, Step(c, s, RestartProcess(who)), who);
  }

  lemma {:induction false} RunKeepsAgreement(c: Config, s: System, events: seq<Event>)
    requires Agreement(c, s) && ValidRun(c, s, events)
    ensures Agreement(c, After(c, s, events))
    decreases |events|
  {
    if events == [] {
    } else {
      match events[0] {
        case Send(who, plaintext) => SendKeeps(c, s, who, plaintext);
        case TakeDhStep(who) => DhStepKeeps(c, s, who);
        case Deliver(to, n) => DeliverKeeps(c, s, to, n);
        case Inject(to, box, header) => InjectKeeps(c, s, to, box, header);
        case RestartProcess(who) => RestartKeeps(c, s, who);
      }
      RunKeepsAgreement(c, Step(c, s, events[0]), events[1..]);
    }
  }

  // ---------------------------------------------------------------- results over whole runs

  lemma {:induction false} RunSplits(c: Config, s: System, events: seq<Event>, k: nat)
    requires ValidRun(c, s, events) && k < |events|
    ensures ValidRun(c, s, events[..k]) && Enabled(c, After(c, s, events[..k]), events[k])
    decreases k
  {
    if k == 0 {
    } else {
      RunSplits(c, Step(c, s, events[0]), events[1..], k - 1);
      assert events[..k][1..] == events[1..][..k - 1];
    }
  }

  lemma {:induction false} WithoutInjectionHonest(c: Config, s: System, events: seq<Event>)
    requires ValidRun(c, s, events) && forall i :: 0 <= i < |events| ==> !events[i].Inject?
    ensures After(c, s, events).honest == s.honest
    decreases |events|
  {
    if events == [] {
    } else {
      WithoutInjectionHonest(c, Step(c, s, events[0]), events[1..]);
    }
  }

  /** Two-party chain agreement. In every interleaving of sends, deliveries, injections, restarts and
      one DH step per side: a side's receiving chain at index j is the peer's first sending chain
      advanced j times, its own sending chain likewise, stored keys are the peer's message keys, and
      its root is the member of R0, R1, R2 counted by the chains it holds. */
  lemma ChainAgreement(c: Config, events: seq<Event>, side: Side)
    requires ValidRun(c, Initial(c), events)
    ensures var r := After(c, Initial(c), events).Of(side).ratchet;
      && (r.receiving.chainKey.Some? ==>
            r.receiving.chainKey.value.key
              == ChainFrom(ChainOf(c, side.Other()), ChainKeyInfo, r.receiving.chainKey.value.index))
      && (forall j :: 0 <= j < |r.receiving.skipped| ==>
            r.receiving.skipped[j].1 == MessageKeyOf(ChainOf(c, side.Other()), r.receiving.skipped[j].0))
      && (r.sending.chainKey.Some? ==>
            && r.sending.chainKey.value.index == |After(c, Initial(c), events).Of(side).plaintexts|
            && r.sending.chainKey.value.key
              == ChainFrom(ChainOf(c, side), ChainKeyInfo, r.sending.chainKey.value.index))
      && r.root == RootAt(c, (if r.sending.chainKey.Some? then 1 else 0)
                             + (if r.receiving.chainKey.Some? then 1 else 0))
      && r.receiving.ourKey.None?
    ensures Initial(c).alice.ratchet.sending.chainKey == Some(ChainKey(ChainOf(c, Alice), 0))
  {
    InitialAgrees(c);
    RunKeepsAgreement(c, Initial(c), events);
    var s := After(c, Initial(c), events);
    assert KeySlots(c, s, side) && WritesOn(s.Of(side), ChainOf(c, side), PublicOf(KeyOf(c, side)));
    assert ReadsOn(s.Of(side), ChainOf(c, side.Other()), s.honest, |s.Of(side.Other()).wire|);
  }

  /** The verdict on every delivery. After any run at all, replays, injections and restarts included, and
      for any message the peer has sent, delivered before or not: it is read if and only if its key is
      in store, or the receiver has a chain, has not passed the index, and the index is within reach. */
  lemma EveryDelivery(c: Config, events: seq<Event>, to: Side, n: nat)
    requires ValidRun(c, Initial(c), events) && n < |After(c, Initial(c), events).Of(to.Other()).wire|
    ensures var s := After(c, Initial(c), events); var sender := s.Of(to.Other());
      && |sender.plaintexts| == |sender.wire|
      && Verdict(s, to, n) == Reading(s.Of(to).ratchet, n, sender.plaintexts[n])
  {
    InitialAgrees(c);
    RunKeepsAgreement(c, Initial(c), events);
    AgreedVerdict(c, After(c, Initial(c), events), to, n);
  }

  /** Out-of-order completeness. As long as no replay or injection has changed a ratchet (in particular
      in a run without any), each message being delivered at most once, in any order and with any losses,
      the delivery at any point returns exactly the plaintext that was encrypted if and only if the
      receiver has taken its DH step and the message is within reach of its store; and every message is
      within reach while the peer has sent at most MAX_SKIP_MESSAGES + 1 of them. */
  lemma OutOfOrderCompleteness(c: Config, events: seq<Event>, k: nat)
    requires ValidRun(c, Initial(c), events) && k < |events| && events[k].Deliver?
    ensures ValidRun(c, Initial(c), events[..k]) && Enabled(c, After(c, Initial(c), events[..k]), events[k])
    ensures (forall i :: 0 <= i < k ==> !events[i].Inject?) ==> After(c, Initial(c), events[..k]).honest
    ensures var s := After(c, Initial(c), events[..k]);
      var Deliver(to, n) := events[k];
      var sender, rc := s.Of(to.Other()), s.Of(to).ratchet.receiving;
      && |sender.plaintexts| == |sender.wire|
      && (s.honest ==>
            && Verdict(s, to, n) == (if !s.Of(to).stepped then Failure(NoReceivingChain)
                                     else if WithinReach(rc, n) then Success(sender.plaintexts[n])
                                     else Failure(TooManySkipped))
            && (s.Of(to).stepped && |sender.wire| <= MAX_SKIP_MESSAGES + 1 ==> WithinReach(rc, n)))
  {
    RunSplits(c, Initial(c), events, k);
    EveryDelivery(c, events[..k], events[k].to, events[k].n);
    InitialAgrees(c);
    RunKeepsAgreement(c, Initial(c), events[..k]);
    if forall i :: 0 <= i < k ==> !events[i].Inject? {
      WithoutInjectionHonest(c, Initial(c), events[..k]);
    }
    var s := After(c, Initial(c), events[..k]);
    AgreedVerdict(c, s, events[k].to, events[k].n);
    assert SideAgrees(c, s, events[k].to);
  }

  lemma AgreedAcceptance(c: Config, s: System, to: Side, box: Box<Header>, header: Header)
    requires Agreement(c, s) && Enabled(c, s, Inject(to, box, header))
    ensures var sender := s.Of(to.Other()); var result := DecryptStep(s.Of(to).ratchet, box, header).0;
      result.Success? ==>
        && header.messageNumber < |sender.wire| == |sender.plaintexts|
        && sender.wire[header.messageNumber] == (box, header)
        && result.value == sender.plaintexts[header.messageNumber]
  {
    var author, chain := PublicOf(KeyOf(c, to.Other())), ChainOf(c, to.Other());
    assert WritesOn(s.Of(to.Other()), chain, author);
    assert ReadsOn(s.Of(to), chain, s.honest, |s.Of(to.Other()).wire|);
    AcceptsOnlySent(s.Of(to).ratchet, box, header, chain, author, s.Of(to.Other()).plaintexts);
  }

  /** Safety under any network: after any run, replays and injections included, a party that accepts
      something accepts the plaintext its peer encrypted under that very header. */
  lemma AcceptedWasSent(c: Config, events: seq<Event>, to: Side, box: Box<Header>, header: Header)
    requires ValidRun(c, Initial(c), events)
    requires Enabled(c, After(c, Initial(c), events), Inject(to, box, header))
    ensures var s := After(c, Initial(c), events); var sender := s.Of(to.Other());
      var result := DecryptStep(s.Of(to).ratchet, box, header).0;
      result.Success? ==>
        && header.messageNumber < |sender.wire| == |sender.plaintexts|
        && sender.wire[header.messageNumber] == (box, header)
        && result.value == sender.plaintexts[header.messageNumber]
  {
    InitialAgrees(c);
    RunKeepsAgreement(c, Initial(c), events);
    AgreedAcceptance(c, After(c, Initial(c), events), to, box, header);
  }
}
