/** Accounting of outbound requests in the node's event loop (presidium-network/src/node.rs). */
module Pending {
  import opened Results
  import opened Terms

  /** A peer id and the conversation id of an envelope. */
  datatype Route = Route(peer: nat, conversationId: Bytes)

  /** What the loop reacts to: a send (with the request id the swarm assigns), a response, a failure. */
  datatype LoopEvent =
    | SendDirect(id: nat, route: Route)
    | Response(id: nat, status: nat)
    | OutboundFailure(id: nat, peer: nat)

  datatype NodeEvent = DirectDelivered(route: Route, status: nat) | DirectFailed(peer: nat)

  function React(pending: map<nat, Route>, e: LoopEvent): (Option<NodeEvent>, map<nat, Route>) {
    match e
    case SendDirect(id, route) => (None, pending[id := route])
    case Response(id, status) =>
      if id in pending then (Some(DirectDelivered(pending[id], status)), pending - {id}) else (None, pending)
    case OutboundFailure(id, peer) => (Some(DirectFailed(peer)), pending - {id})
  }

  function Listed(event: Option<NodeEvent>): seq<NodeEvent> {
    match event
    case None => []
    case Some(e) => [e]
  }

  // ---------------------------------------------------------------- runs

  function PendingAfter(events: seq<LoopEvent>): map<nat, Route> {
    if events == [] then map[]
    else React(PendingAfter(events[..|events| - 1]), events[|events| - 1]).1
  }

  /** The event emitted in reaction to event `k` of a run. */
  function Emitted(events: seq<LoopEvent>, k: nat): Option<NodeEvent>
    requires k < |events|
  {
    React(PendingAfter(events[..k]), events[k]).0
  }

  /** All events emitted along a run. */
  function Reports(events: seq<LoopEvent>): seq<NodeEvent> {
    if events == [] then []
    else Reports(events[..|events| - 1]) + Listed(Emitted(events, |events| - 1))
  }

  /** The reference: the route of the last send of `id` that nothing has resolved since. */
  function OpenSend(events: seq<LoopEvent>, id: nat): Option<Route> {
    if events == [] then None
    else
      var last := events[|events| - 1];
      if last.id == id then (if last.SendDirect? then Some(last.route) else None)
      else OpenSend(events[..|events| - 1], id)
  }

  /** The pending map is that reference, request by request, on every sequence of events. */
  lemma {:induction false} PendingIsOpenSends(events: seq<LoopEvent>, id: nat)
    ensures OpenSend(events, id) == if id in PendingAfter(events) then Some(PendingAfter(events)[id]) else None
  {
    if events == [] {
    } else {
      PendingIsOpenSends(events[..|events| - 1], id);
    }
  }

  /** The reference for reports: a response reports the open send of its request, if there is one; a failure is
      always reported; a send reports nothing. */
  function Expected(events: seq<LoopEvent>): seq<NodeEvent> {
    if events == [] then []
    else
      var before, last := events[..|events| - 1], events[|events| - 1];
      Expected(before) +
        match last
        case SendDirect(_, _) => []
        case Response(id, status) =>
          (match OpenSend(before, id)
           case None => []
           case Some(route) => [DirectDelivered(route, status)])
        case OutboundFailure(_, peer) => [DirectFailed(peer)]
  }

  lemma {:induction false} ReportsAreExpected(events: seq<LoopEvent>)
    ensures Reports(events) == Expected(events)
  {
    if events == [] {
    } else {
      ReportsAreExpected(events[..|events| - 1]);
      PendingIsOpenSends(events[..|events| - 1], events[|events| - 1].id);
    }
  }

  class EventLoop {
    var pending: map<nat, Route>
    var emitted: seq<NodeEvent>

    constructor ()
      ensures pending == map[] && emitted == []
    {
      pending, emitted := map[], [];
    }

    method Handle(e: LoopEvent)
      modifies this
      ensures pending == React(old(pending), e).1
      ensures emitted == old(emitted) + Listed(React(old(pending), e).0)
    {
      match e {
        case SendDirect(id, route) => pending := pending[id := route];
        case Response(id, status) =>
          if id in pending {
            emitted := emitted + [DirectDelivered(pending[id], status)];
            pending := pending - {id};
          }
        case OutboundFailure(id, peer) =>
          pending := pending - {id};
          emitted := emitted + [DirectFailed(peer)];
      }
    }

    /** The loop over whatever the control channel and the swarm bring up: it leaves exactly the open
        sends pending, and reports exactly what the run calls for, in order. */
    method Run(events: seq<LoopEvent>)
      requires pending == map[] && emitted == []
      modifies this
      ensures forall id :: OpenSend(events, id) == if id in pending then Some(pending[id]) else None
      ensures emitted == Expected(events)
    {
      for k := 0 to |events|
        invariant pending == PendingAfter(events[..k]) && emitted == Reports(events[..k])
      {
        assert events[..k + 1][..k] == events[..k];
        Handle(events[k]);
      }
      assert events[..|events|] == events;
      ReportsAreExpected(events);
      forall id {
        PendingIsOpenSends(events, id);
      }
    }
  }

  /** Where an open send comes from. */
  lemma {:induction false} OpenSendWitness(events: seq<LoopEvent>, id: nat) returns (j: nat)
    requires OpenSend(events, id).Some?
    ensures j < |events| && events[j] == SendDirect(id, OpenSend(events, id).value)
    ensures forall i :: j < i < |events| ==> events[i].id != id
  {
    j := |events| - 1;
    if events[j].id != id {
      j := OpenSendWitness(events[..|events| - 1], id);
    }
  }

  /** Every delivery report carries the peer and conversation id of the latest send of its request, with
      no resolution in between; so that two reports for one request id are separated by another send of
      that id, and unique request ids are reported delivered at most once. */
  lemma DeliveredIsOwnSend(events: seq<LoopEvent>, k: nat, later: nat) returns (j: nat)
    requires k < |events| && events[k].Response? && Emitted(events, k).Some?
    ensures j < k && events[j].SendDirect? && events[j].id == events[k].id
    ensures Emitted(events, k) == Some(DirectDelivered(events[j].route, events[k].status))
    ensures forall i :: j < i < k ==> events[i].id != events[k].id
    ensures (&& k < later < |events| && events[later].Response? && events[later].id == events[k].id
             && Emitted(events, later).Some?) ==>
      exists i :: k < i < later && events[i].SendDirect? && events[i].id == events[k].id
  {
    var id := events[k].id;
    PendingIsOpenSends(events[..k], id);
    j := OpenSendWitness(events[..k], id);
    if k < later < |events| && events[later].Response? && events[later].id == id && Emitted(events, later).Some? {
      PendingIsOpenSends(events[..later], id);
      var i := OpenSendWitness(events[..later], id);
      assert events[..later][k] == events[k];
      assert events[i].SendDirect? && events[i].id == id;
    }
  }

  // ---------------------------------------------------------------- conservation

  datatype Tally = Tally(sends: nat, delivered: nat, failed: nat, overwritten: nat, stray: nat)

  /** Sends; deliveries and failures reported; sends under an id still pending; failures of an id that
      is not pending. */
  function Count(events: seq<LoopEvent>): Tally {
    if events == [] then Tally(0, 0, 0, 0, 0)
    else
      var before, last := events[..|events| - 1], events[|events| - 1];
      var t, pending := Count(before), PendingAfter(before);
      match last
      case SendDirect(id, _) => t.(sends := t.sends + 1, overwritten := t.overwritten + if id in pending then 1 else 0)
      case Response(id, _) => t.(delivered := t.delivered + if id in pending then 1 else 0)
      case OutboundFailure(id, _) => t.(failed := t.failed + 1, stray := t.stray + if id in pending then 0 else 1)
  }

  lemma RemoveSize(m: map<nat, Route>, id: nat)
    ensures |m - {id}| == |m| - (if id in m then 1 else 0)
  {
    assert (m - {id}).Keys == m.Keys - {id};
    assert |m.Keys| == |m| && |(m - {id}).Keys| == |m - {id}|;
  }

  lemma InsertSize(m: map<nat, Route>, id: nat, route: Route)
    ensures |m[id := route]| == |m| + (if id in m then 0 else 1)
  {
    assert m[id := route].Keys == m.Keys + {id};
    assert |m.Keys| == |m| && |m[id := route].Keys| == |m[id := route]|;
  }

  /** Request ids are unique and every resolution is the first one of a request that was sent. */
  predicate WellBehaved(events: seq<LoopEvent>) {
    && (forall i, j :: 0 <= i < j < |events| && events[i].SendDirect? && events[j].SendDirect? ==>
          events[i].id != events[j].id)
    && (forall j :: 0 <= j < |events| && !events[j].SendDirect? ==>
          && (exists i :: 0 <= i < j && events[i].SendDirect? && events[i].id == events[j].id)
          && (forall i :: 0 <= i < j && !events[i].SendDirect? ==> events[i].id != events[j].id))
  }

  lemma {:induction false} ConservationLaw(events: seq<LoopEvent>)
    ensures var t := Count(events);
      t.sends + t.stray == |PendingAfter(events)| + t.delivered + t.failed + t.overwritten
  {
    if events == [] {
    } else {
      var before, last := events[..|events| - 1], events[|events| - 1];
      ConservationLaw(before);
      RemoveSize(PendingAfter(before), last.id);
      if last.SendDirect? {
        InsertSize(PendingAfter(before), last.id, last.route);
      }
    }
  }

  lemma {:induction false} OpenSendIsLatest(events: seq<LoopEvent>, id: nat, j: nat)
    requires j < |events| && events[j].SendDirect? && events[j].id == id
    requires forall i :: j < i < |events| ==> events[i].id != id
    ensures OpenSend(events, id).Some?
  {
    if events[|events| - 1].id != id {
      OpenSendIsLatest(events[..|events| - 1], id, j);
    }
  }

  lemma {:induction false} WellBehavedCounts(events: seq<LoopEvent>)
    requires WellBehaved(events)
    ensures Count(events).stray == 0 && Count(events).overwritten == 0
  {
    if events == [] {
    } else {
      var n := |events| - 1;
      var before, last := events[..n], events[n];
      WellBehavedPrefix(events, n);
      WellBehavedCounts(before);
      PendingIsOpenSends(before, last.id);
      if last.SendDirect? {
        if OpenSend(before, last.id).Some? {
          var j := OpenSendWitness(before, last.id);
          assert false;
        }
      } else {
        var j :| 0 <= j < n && events[j].SendDirect? && events[j].id == last.id;
        OpenSendIsLatest(before, last.id, j);
      }
    }
  }

  lemma WellBehavedPrefix(events: seq<LoopEvent>, n: nat)
    requires WellBehaved(events) && n <= |events|
    ensures WellBehaved(events[..n])
  {
    forall j | 0 <= j < n && !events[j].SendDirect?
      ensures exists i :: 0 <= i < j && events[..n][i].SendDirect? && events[..n][i].id == events[..n][j].id
    {
      var i :| 0 <= i < j && events[i].SendDirect? && events[i].id == events[j].id;
      assert events[..n][i] == events[i];
    }
  }

  /** Pending-request accounting. On every sequence of events at all, sends plus stray failures equal
      pending plus delivered plus failed plus overwritten sends; and when request ids are unique and
      each is resolved at most once after it was sent, sends equal pending plus delivered plus failed. */
  lemma PendingAccounting(events: seq<LoopEvent>)
    ensures var t := Count(events);
      && t.sends + t.stray == |PendingAfter(events)| + t.delivered + t.failed + t.overwritten
      && (WellBehaved(events) ==> t.sends == |PendingAfter(events)| + t.delivered + t.failed)
  {
    ConservationLaw(events);
    if WellBehaved(events) {
      WellBehavedCounts(events);
    }
  }
}
