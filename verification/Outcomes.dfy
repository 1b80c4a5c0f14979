/** Queue messages and the order of the storage operations: what a message was settled as is what became of
    its operation there. */
module Outcomes {
  import opened Results
  import StorageSpec
  import opened Protocol
  import History
  import opened Completeness
  import opened Deliveries
  import opened Consumers

  /** A settled message has a request exactly if it decoded: the request it asks for, whose reply it was
      settled by. */
  predicate Placed(c: Core, k: Kind, t: Settlement, ticket: Option<nat>) {
    && (ticket.Some? <==> Decode(k, t.delivery).Some?)
    && (ticket.None? ==> t.reply == None && !t.acked)
    && (ticket.Some? ==>
          && ticket.value < |c.issued| && Decode(k, t.delivery) == Some(c.issued[ticket.value])
          && ticket.value in c.replies && t.reply == Some(c.replies[ticket.value])
          && (t.acked <==> !c.replies[ticket.value].Failed?))
  }

  ghost predicate AllPlaced(c: Core, k: Kind, l: Line) {
    && |l.tickets| == |l.settled|
    && (forall i :: 0 <= i < |l.settled| ==> Placed(c, k, l.settled[i], l.tickets[i]))
    && (forall i, j :: 0 <= i < j < |l.tickets| && l.tickets[i].Some? ==> l.tickets[i] != l.tickets[j])
  }

  ghost predicate SystemPlaced(s: System) {
    Complete(s.core) && forall k :: AllPlaced(s.core, k, At(s, k))
  }

  /** The record of requests and replies only grows. */
  ghost predicate RecordGrows(c: Core, c': Core) {
    c.issued <= c'.issued && forall t :: t in c.replies ==> t in c'.replies && c'.replies[t] == c.replies[t]
  }

  lemma EventGrowsRecord(c: Core, e: Event)
    requires History.Safe(c) && Complete(c) && Enabled(c, e)
    ensures RecordGrows(c, Next(c, e))
  {
    if e.End? {
      assert InFlightAs(c, c.procs[e.who].ticket);
    }
  }

  lemma StaysPlaced(c: Core, c': Core, k: Kind, l: Line)
    requires AllPlaced(c, k, l) && RecordGrows(c, c')
    ensures AllPlaced(c', k, l)
  {
    forall i | 0 <= i < |l.settled| ensures Placed(c', k, l.settled[i], l.tickets[i]) {
      assert Placed(c, k, l.settled[i], l.tickets[i]);
    }
  }

  lemma OneMorePlaced(c: Core, k: Kind, l: Line, t: Settlement, ticket: Option<nat>)
    requires AllPlaced(c, k, l) && Placed(c, k, t, ticket) && (ticket.Some? ==> ticket !in l.tickets)
    ensures AllPlaced(c, k, SettleLine(l, t, ticket))
  {
    var l' := SettleLine(l, t, ticket);
    forall i | 0 <= i < |l'.settled| ensures Placed(c, k, l'.settled[i], l'.tickets[i]) {
      assert i < |l.settled| ==> Placed(c, k, l.settled[i], l.tickets[i]);
    }
  }

  /** The request in hand has no reply yet, so no settled message has its ticket. */
  lemma SettleIsPlaced(s: System, k: Kind)
    requires SystemOk(s) && SystemPlaced(s) && Can(s, Settle(k))
    ensures AllPlaced(After(s, Settle(k)).core, k, At(After(s, Settle(k)), k))
  {
    assert LineOk(s, k);
    var p := s.core.procs[Consumer(k)];
    var l := At(s, k);
    var c' := After(s, Settle(k)).core;
    assert Tracked(s.core.issued, s.core.log, p) && InFlightAs(s.core, p.ticket);
    EventGrowsRecord(s.core, End(Consumer(k)));
    forall i | 0 <= i < |l.tickets| ensures l.tickets[i] != Some(p.ticket) {
      assert Placed(s.core, k, l.settled[i], l.tickets[i]);
    }
    StaysPlaced(s.core, c', k, l);
    OneMorePlaced(c', k, l, Settled(l.slot.d, Some(p.pc.reply)), Some(p.ticket));
    assert At(After(s, Settle(k)), k) == LineAfter(s, Settle(k), k);
  }

  lemma LineStaysPlaced(s: System, h: Happening, k: Kind)
    requires SystemOk(s) && SystemPlaced(s) && Can(s, h) && RecordGrows(s.core, After(s, h).core)
    ensures AllPlaced(After(s, h).core, k, At(After(s, h), k))
  {
    var l, c' := At(s, k), After(s, h).core;
    assert At(After(s, h), k) == LineAfter(s, h, k);
    StaysPlaced(s.core, c', k, l);
    if h == Settle(k) {
      SettleIsPlaced(s, k);
    } else if h == Dispatch(k) && Decode(k, l.slot.d).None? {
      OneMorePlaced(c', k, l, Settled(l.slot.d, None), None);
    }
  }

  lemma HappeningKeepsPlaces(s: System, h: Happening)
    requires SystemOk(s) && SystemPlaced(s) && Can(s, h)
    ensures SystemPlaced(After(s, h))
  {
    if CoreEvents(s, h) != [] {
      EventGrowsRecord(s.core, CoreEvents(s, h)[0]);
      EventStaysComplete(s.core, CoreEvents(s, h)[0]);
    }
    forall k ensures AllPlaced(After(s, h).core, k, At(After(s, h), k)) {
      LineStaysPlaced(s, h, k);
    }
  }

  lemma {:induction false} RunKeepsPlaces(s: System, hs: seq<Happening>)
    requires SystemOk(s) && SystemPlaced(s) && Happens(s, hs)
    ensures SystemPlaced(Finally(s, hs))
    decreases |hs|
  {
    if hs != [] {
      AfterKeeps(s, hs[0]);
      HappeningKeepsPlaces(s, hs[0]);
      RunKeepsPlaces(After(s, hs[0]), hs[1..]);
    }
  }

  /** The operation at place `i` of the order is the one the message asks for, and succeeded there exactly
      if the message was acked, or nacked for the cache alone. */
  predicate EndedAs(k: Kind, log: seq<Entry>, i: nat, ticket: nat, t: Settlement) {
    && i < |log| && log[i].ticket == ticket && Decode(k, t.delivery) == Some(log[i].call)
    && (log[i].verdict.Done? <==> t.acked || CacheOnly(t))
  }

  /** A message that did not decode was nacked and is no operation; one that did has its place. */
  ghost predicate HasPlace(k: Kind, log: seq<Entry>, ticket: Option<nat>, t: Settlement) {
    if Decode(k, t.delivery).None? then ticket == None && !t.acked
    else ticket.Some? && exists i :: EndedAs(k, log, i, ticket.value, t)
  }

  lemma PlacedHasPlace(c: Core, k: Kind, t: Settlement, ticket: Option<nat>)
    requires Complete(c) && Placed(c, k, t, ticket)
    ensures HasPlace(k, c.log, ticket, t)
  {
    if ticket.Some? {
      assert Tracked(c.issued, c.log, Over(c, ticket.value));
      assert !c.issued[ticket.value].Get?;
      var i :| 0 <= i < |c.log| && c.log[i].ticket == ticket.value;
      assert Fits(Finished(c.replies[ticket.value]), c.log[i].verdict);
      assert EndedAs(k, c.log, i, ticket.value, t);
    }
  }

  /** For each of the three queues and at every moment, every settled message has its place in the order of
      the storage operations and was settled as the operation ended there, and no two share a place. */
  lemma SettlementsFollowTheOrder(cfg: StorageSpec.Settings, services: int, hs: seq<Happening>, k: Kind)
    requires Happens(Started(cfg, services), hs)
    ensures var s := Finally(Started(cfg, services), hs);
            var l := At(s, k);
            && |l.tickets| == |l.settled|
            && (forall i :: 0 <= i < |l.settled| ==> HasPlace(k, s.core.log, l.tickets[i], l.settled[i]))
            && (forall i, j :: 0 <= i < j < |l.tickets| && l.tickets[i].Some? ==> l.tickets[i] != l.tickets[j])
  {
    StartedIsOk(cfg, services);
    RunKeepsPlaces(Started(cfg, services), hs);
    var s := Finally(Started(cfg, services), hs);
    var l := At(s, k);
    assert AllPlaced(s.core, k, l);
    forall i | 0 <= i < |l.settled| ensures HasPlace(k, s.core.log, l.tickets[i], l.settled[i]) {
      PlacedHasPlace(s.core, k, l.settled[i], l.tickets[i]);
    }
  }
}
