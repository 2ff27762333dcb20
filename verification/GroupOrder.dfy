/** Group messages read in order: what a sender's own key distribution makes readable. */
module GroupOrder {
  import opened Results
  import opened Terms
  import opened Pqxdh
  import opened Session
  import opened Group

  /** Epochs are never lost: each keeps its seed and only gains messages. */
  predicate EpochsGrew(s: GroupSystem, t: GroupSystem) {
    && |s.epochs| <= |t.epochs|
    && (forall i :: 0 <= i < |s.epochs| ==>
          && s.epochs[i].seed == t.epochs[i].seed
          && s.epochs[i].plaintexts <= t.epochs[i].plaintexts && s.epochs[i].envelopes <= t.epochs[i].envelopes)
  }

  lemma {:induction false} RunGrowsEpochs(s: GroupSystem, identity: IdentityKeyPair, events: seq<GroupEvent>)
    requires ValidGroupRun(s, identity, events)
    ensures EpochsGrew(s, AfterGroup(s, identity, events))
    decreases |events|
  {
    if events == [] {
    } else {
      var next := GroupStep(s, identity, events[0]);
      assert EpochsGrew(s, next);
      RunGrowsEpochs(next, identity, events[1..]);
    }
  }

  /** Applying what came with a new sender key, at once or after any run, puts the reader at the start of that
      key's epoch. */
  lemma OwnDistributionStartsEpoch(s: GroupSystem, identity: IdentityKeyPair, seed: Key, events: seq<GroupEvent>)
    requires GroupEnabled(s, identity, NewKey(seed))
    requires ValidGroupRun(GroupStep(s, identity, NewKey(seed)), identity, events)
    ensures var d := CreateSender(s.sender, identity, seed).0;
      var t := AfterGroup(GroupStep(s, identity, NewKey(seed)), identity, events);
      && GroupEnabled(t, identity, Distribute(d))
      && Applied(GroupStep(t, identity, Distribute(d)), |s.epochs|, 0)
      && GroupStep(t, identity, Distribute(d)).accepted == []
  {
    RunGrowsEpochs(GroupStep(s, identity, NewKey(seed)), identity, events);
  }

  function ReadsUpTo(epoch: Epoch, k: nat): seq<GroupEvent>
    requires k <= |epoch.envelopes|
  {
    seq(k, i requires 0 <= i < k => Read(epoch.envelopes[i]))
  }

  lemma {:induction false} GroupRunExtends(s: GroupSystem, identity: IdentityKeyPair, events: seq<GroupEvent>,
                                           e: GroupEvent)
    requires ValidGroupRun(s, identity, events) && GroupEnabled(AfterGroup(s, identity, events), identity, e)
    ensures ValidGroupRun(s, identity, events + [e])
    ensures AfterGroup(s, identity, events + [e]) == GroupStep(AfterGroup(s, identity, events), identity, e)
    decreases |events|
  {
    if events == [] {
      assert events + [e] == [e] && [e][1..] == [];
    } else {
      assert (events + [e])[0] == events[0] && (events + [e])[1..] == events[1..] + [e];
      GroupRunExtends(GroupStep(s, identity, events[0]), identity, events[1..], e);
    }
  }

  /** One read in order. */
  lemma NextIsRead(s: GroupSystem, identity: IdentityKeyPair, e: nat)
    requires GroupInvariant(s, identity) && Applied(s, e, 0) && |s.accepted| < |s.epochs[e].envelopes|
    ensures var event := Read(s.epochs[e].envelopes[|s.accepted|]);
      && GroupEnabled(s, identity, event)
      && var s' := GroupStep(s, identity, event);
      && |s.epochs[e].plaintexts| == |s.epochs[e].envelopes|
      && s'.accepted == s.accepted + [s.epochs[e].plaintexts[|s.accepted|]]
      && s'.epochs == s.epochs && s'.applied == s.applied
  {
    var i := |s.accepted|;
    var envelope := s.epochs[e].envelopes[i];
    assert envelope == Relabelled(s.epochs[e].envelopes[i], envelope.conversationId);
    ReadsExactlyTheNext(s, identity, e, i, envelope.conversationId);
  }

  /** The first `k` messages of an epoch can be read in order, and are all accepted. */
  predicate ReadInOrder(s: GroupSystem, identity: IdentityKeyPair, e: nat, k: nat)
    requires e < |s.epochs| && k <= |s.epochs[e].envelopes|
  {
    var inOrder := ReadsUpTo(s.epochs[e], k);
    && ValidGroupRun(s, identity, inOrder)
    && var t := AfterGroup(s, identity, inOrder);
    && k <= |s.epochs[e].plaintexts| && t.accepted == s.epochs[e].plaintexts[..k]
    && t.epochs == s.epochs && t.applied == s.applied
  }

  lemma PrefixExtends(all: seq<Bytes>, k: nat)
    requires k < |all|
    ensures all[..k] + [all[k]] == all[..k + 1]
  {
  }

  lemma ReadsExtend(epoch: Epoch, k: nat)
    requires k < |epoch.envelopes|
    ensures ReadsUpTo(epoch, k + 1) == ReadsUpTo(epoch, k) + [Read(epoch.envelopes[k])]
  {
  }

  /** Appending one event to a run that has read `k` messages, from what that event does. */
  lemma AppendRead(s: GroupSystem, identity: IdentityKeyPair, e: nat, k: nat)
    requires e < |s.epochs| && k < |s.epochs[e].envelopes| && k < |s.epochs[e].plaintexts|
    requires ReadInOrder(s, identity, e, k)
    requires var t := AfterGroup(s, identity, ReadsUpTo(s.epochs[e], k)); var event := Read(s.epochs[e].envelopes[k]);
      && GroupEnabled(t, identity, event)
      && GroupStep(t, identity, event).accepted == t.accepted + [s.epochs[e].plaintexts[k]]
      && GroupStep(t, identity, event).epochs == t.epochs && GroupStep(t, identity, event).applied == t.applied
    ensures ReadInOrder(s, identity, e, k + 1)
  {
    GroupRunExtends(s, identity, ReadsUpTo(s.epochs[e], k), Read(s.epochs[e].envelopes[k]));
    ReadsExtend(s.epochs[e], k);
    PrefixExtends(s.epochs[e].plaintexts, k);
  }

  lemma OneMoreRead(s: GroupSystem, identity: IdentityKeyPair, e: nat, k: nat)
    requires GroupInvariant(s, identity) && Applied(s, e, 0) && k < |s.epochs[e].envelopes|
    requires ReadInOrder(s, identity, e, k)
    ensures ReadInOrder(s, identity, e, k + 1)
  {
    var inOrder := ReadsUpTo(s.epochs[e], k);
    GroupRunKeeps(s, identity, inOrder);
    NextIsRead(AfterGroup(s, identity, inOrder), identity, e);
    AppendRead(s, identity, e, k);
  }

  /** Group completeness. From any state of a run in which the reader has just applied an epoch's own key,
      reading that epoch's messages in the order they were written accepts every one of them. */
  lemma {:induction false} InOrderReadsAll(s: GroupSystem, identity: IdentityKeyPair, e: nat, k: nat)
    requires GroupInvariant(s, identity) && Applied(s, e, 0) && s.accepted == [] && k <= |s.epochs[e].envelopes|
    ensures ReadInOrder(s, identity, e, k)
  {
    if k == 0 {
      assert EpochOk(SettingOf(s, identity), s.epochs[e]);
    } else {
      InOrderReadsAll(s, identity, e, k - 1);
      OneMoreRead(s, identity, e, k - 1);
    }
  }
}
