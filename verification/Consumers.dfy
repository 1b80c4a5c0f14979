/** The three consumers running at once with each other and with direct calls, from start to shutdown. */
module Consumers {
  import opened Results
  import opened Database
  import opened StorageSpec
  import ServiceSpec
  import opened Protocol
  import opened History
  import opened Deliveries

  /** What a consumer is at: waiting in its select, holding a message it has just taken, in the service call
      for it, or gone. */
  datatype Slot = Idle | Holding(d: Delivery) | Serving(d: Delivery) | Exited

  /** A consumer and its channel.  `arrived` and `served` record all messages that ever came, and those
      handed to the service; `tickets` has, for each settled message, that of the request made of it. */
  datatype Line = Line(
    arrived: seq<Delivery>, served: seq<Delivery>, settled: seq<Settlement>, tickets: seq<Option<nat>>,
    slot: Slot, waiting: seq<Delivery>)

  datatype System = System(
    core: Core, registration: Line, updating: Line, deletion: Line,
    cancelled: bool, services: int, wg: int, returned: bool)

  function At(s: System, k: Kind): Line {
    match k
    case Registration => s.registration
    case Updating => s.updating
    case Deletion => s.deletion
  }

  datatype Happening =
    | Arrive(kind: Kind, d: Delivery)   // a message comes in
    | Take(kind: Kind)                  // the select takes one
    | Dispatch(kind: Kind)              // it is decoded, and nacked or handed to the service
    | Work(kind: Kind, env: Env)        // one step of the service call
    | Settle(kind: Kind)                // the call is over: Ack or Nack
    | Exit(kind: Kind)                  // the select takes the context's end
    | Cancel                            // the signal comes
    | Return                            // the wait is over
    | Direct(e: Event)                  // a gRPC call, or an expiry

  predicate ByClient(e: Event) {
    e.Expire? || e.who.Client?
  }

  /** A consumer's calls see the context that the signal ends; a direct call has one of its own. */
  predicate Can(s: System, h: Happening) {
    match h
    case Arrive(_, _) => true
    case Take(k) => At(s, k).slot.Idle? && At(s, k).waiting != []
    case Dispatch(k) =>
      At(s, k).slot.Holding? && (Decode(k, At(s, k).slot.d).Some? ==> Consumer(k) !in s.core.procs)
    case Work(k, env) =>
      At(s, k).slot.Serving? && Enabled(s.core, Act(Consumer(k), env)) && env.cancelled == s.cancelled
    case Settle(k) => At(s, k).slot.Serving? && Enabled(s.core, End(Consumer(k)))
    case Exit(k) => At(s, k).slot.Idle? && s.cancelled
    case Cancel => !s.cancelled
    case Return => s.cancelled && s.wg == 0 && !s.returned
    case Direct(e) => ByClient(e) && Enabled(s.core, e)
  }

  /** The event of the service that a happening is, if it is one. */
  function CoreEvents(s: System, h: Happening): seq<Event> {
    match h
    case Dispatch(k) =>
      if At(s, k).slot.Holding? && Decode(k, At(s, k).slot.d).Some?
      then [Begin(Consumer(k), Decode(k, At(s, k).slot.d).value)] else []
    case Work(k, env) => [Act(Consumer(k), env)]
    case Settle(k) => [End(Consumer(k))]
    case Direct(e) => [e]
    case _ => []
  }

  /** The service after a happening. */
  function CoreAfter(s: System, h: Happening): Core
    requires Indexed(s.core.world.db) && Can(s, h)
  {
    var es := CoreEvents(s, h);
    if es == [] then s.core else Next(s.core, es[0])
  }

  function SettleLine(l: Line, t: Settlement, ticket: Option<nat>): Line {
    l.(slot := Idle, settled := l.settled + [t], tickets := l.tickets + [ticket])
  }

  /** A consumer's line after a happening of its own. */
  function LineAfter(s: System, h: Happening, k: Kind): Line
    requires Can(s, h)
  {
    var l := At(s, k);
    match h
    case Arrive(j, d) => if j != k then l else l.(arrived := l.arrived + [d], waiting := l.waiting + [d])
    case Take(j) => if j != k then l else l.(slot := Holding(l.waiting[0]), waiting := l.waiting[1..])
    case Dispatch(j) =>
      if j != k then l
      else if Decode(k, l.slot.d).None? then SettleLine(l, Settled(l.slot.d, None), None)
      else l.(slot := Serving(l.slot.d), served := l.served + [l.slot.d])
    case Settle(j) =>
      if j != k then l
      else
        var p := s.core.procs[Consumer(k)];
        SettleLine(l, Settled(l.slot.d, Some(p.pc.reply)), Some(p.ticket))
    case Exit(j) => if j != k then l else l.(slot := Exited)
    case _ => l
  }

  function After(s: System, h: Happening): System
    requires Indexed(s.core.world.db) && Can(s, h)
  {
    System(CoreAfter(s, h),
           LineAfter(s, h, Registration), LineAfter(s, h, Updating), LineAfter(s, h, Deletion),
           s.cancelled || h.Cancel?, s.services, if h.Exit? then s.wg - 1 else s.wg, s.returned || h.Return?)
  }

  const NEW_LINE := Line([], [], [], [], Idle, [])

  /** `StartToConsume` has added `services` to the wait group and started the three consumers. */
  function Started(cfg: Settings, services: int): System {
    System(Initial(cfg), NEW_LINE, NEW_LINE, NEW_LINE, false, services, services, false)
  }

  lemma AfterKeepsIndex(s: System, h: Happening)
    requires Indexed(s.core.world.db) && Can(s, h)
    ensures Indexed(After(s, h).core.world.db)
  {
    if CoreEvents(s, h) != [] {
      KeepsIndex(s.core, CoreEvents(s, h)[0]);
    }
  }

  predicate Happens(s: System, hs: seq<Happening>)
    requires Indexed(s.core.world.db)
    decreases |hs|
  {
    hs != [] ==> Can(s, hs[0]) && (AfterKeepsIndex(s, hs[0]); Happens(After(s, hs[0]), hs[1..]))
  }

  function Finally(s: System, hs: seq<Happening>): System
    requires Indexed(s.core.world.db) && Happens(s, hs)
    ensures Indexed(Finally(s, hs).core.world.db)
    decreases |hs|
  {
    if hs == [] then s
    else
      AfterKeepsIndex(s, hs[0]);
      Finally(After(s, hs[0]), hs[1..])
  }

  // ---- The service inside the system ----

  function Project(s: System, hs: seq<Happening>): seq<Event>
    requires Indexed(s.core.world.db) && Happens(s, hs)
    decreases |hs|
  {
    if hs == [] then []
    else
      AfterKeepsIndex(s, hs[0]);
      CoreEvents(s, hs[0]) + Project(After(s, hs[0]), hs[1..])
  }

  /** Every run of the whole system is a run of the service, so all that holds of those holds here. */
  lemma {:induction false} SystemRunIsServiceRun(s: System, hs: seq<Happening>)
    requires Indexed(s.core.world.db) && Happens(s, hs)
    ensures Valid(s.core, Project(s, hs)) && Run(s.core, Project(s, hs)) == Finally(s, hs).core
    decreases |hs|
  {
    if hs != [] {
      var h := hs[0];
      AfterKeepsIndex(s, h);
      SystemRunIsServiceRun(After(s, h), hs[1..]);
      var es, rest := CoreEvents(s, h), Project(After(s, h), hs[1..]);
      if es == [] {
        assert es + rest == rest;
      } else {
        OneEvent(s.core, es[0]);
        assert es == [es[0]];
        RunThen(s.core, es, rest);
      }
    }
  }

  // ---- What every line keeps ----

  function MessagesOf(settled: seq<Settlement>): (ds: seq<Delivery>)
    ensures |ds| == |settled| && forall i :: 0 <= i < |ds| ==> ds[i] == settled[i].delivery
  {
    seq(|settled|, i requires 0 <= i < |settled| => settled[i].delivery)
  }

  function InHand(slot: Slot): seq<Delivery> {
    if slot.Holding? || slot.Serving? then [slot.d] else []
  }

  function Decodable(k: Kind, ds: seq<Delivery>): seq<Delivery> {
    if ds == [] then []
    else Decodable(k, ds[..|ds| - 1]) + (if Decode(k, ds[|ds| - 1]).Some? then [ds[|ds| - 1]] else [])
  }

  /** Acked exactly if it decoded and the service call returned no error; with no reply if it did not
      decode, and otherwise with one that its own request can have. */
  predicate SettledRight(k: Kind, t: Settlement) {
    && (t.acked <==> Decode(k, t.delivery).Some? && Succeeded(t.reply))
    && (t.reply.Some? <==> Decode(k, t.delivery).Some?)
    && (t.reply.Some? ==> Belongs(Decode(k, t.delivery).value, Finished(t.reply.value)))
  }

  /** The messages that arrived are, in order, those settled, the one in hand, and those that wait; those
      that reached the service are, each once and in order, the ones that decode. */
  ghost predicate Tidy(k: Kind, l: Line) {
    && l.arrived == MessagesOf(l.settled) + InHand(l.slot) + l.waiting
    && l.served == Decodable(k, MessagesOf(l.settled)) + (if l.slot.Serving? then [l.slot.d] else [])
    && (forall i :: 0 <= i < |l.settled| ==> SettledRight(k, l.settled[i]))
    && (l.slot.Serving? ==> Decode(k, l.slot.d).Some?)
  }

  /** A consumer has a request in flight exactly while it serves, and that is the request of the message in
      its hand. */
  ghost predicate Linked(s: System, k: Kind) {
    && (Consumer(k) in s.core.procs <==> At(s, k).slot.Serving?)
    && (At(s, k).slot.Serving? ==> Decode(k, At(s, k).slot.d) == Some(s.core.procs[Consumer(k)].call))
  }

  ghost predicate LineOk(s: System, k: Kind) {
    Tidy(k, At(s, k)) && Linked(s, k)
  }

  ghost predicate SystemOk(s: System) {
    Safe(s.core) && forall k :: LineOk(s, k)
  }

  lemma MessagesMore(ts: seq<Settlement>, t: Settlement)
    ensures MessagesOf(ts + [t]) == MessagesOf(ts) + [t.delivery]
  {
  }

  lemma DecodableMore(k: Kind, ds: seq<Delivery>, d: Delivery)
    ensures Decodable(k, ds + [d]) == Decodable(k, ds) + (if Decode(k, d).Some? then [d] else [])
  {
    assert (ds + [d])[..|ds|] == ds;
  }

  /** A happening that is not the begin or end of a consumer's request leaves the request. */
  lemma ProcStays(s: System, h: Happening, k: Kind)
    requires SystemOk(s) && Can(s, h)
    requires h != Settle(k) && (h == Dispatch(k) ==> Decode(k, At(s, k).slot.d).None?)
    ensures Consumer(k) in After(s, h).core.procs <==> Consumer(k) in s.core.procs
    ensures Consumer(k) in s.core.procs ==>
              After(s, h).core.procs[Consumer(k)].call == s.core.procs[Consumer(k)].call
  {
  }

  lemma ProcBegins(s: System, k: Kind)
    requires SystemOk(s) && Can(s, Dispatch(k)) && Decode(k, At(s, k).slot.d).Some?
    ensures var s' := After(s, Dispatch(k));
            Consumer(k) in s'.core.procs && Some(s'.core.procs[Consumer(k)].call) == Decode(k, At(s, k).slot.d)
  {
  }

  lemma LinkStays(s: System, h: Happening, k: Kind)
    requires SystemOk(s) && Can(s, h)
    ensures Linked(After(s, h), k)
  {
    assert LineOk(s, k);
    assert At(After(s, h), k) == LineAfter(s, h, k);
    if h == Dispatch(k) && Decode(k, At(s, k).slot.d).Some? {
      ProcBegins(s, k);
    } else if h != Settle(k) {
      ProcStays(s, h, k);
    }
  }

  lemma ArriveTidy(k: Kind, l: Line, d: Delivery)
    requires Tidy(k, l)
    ensures Tidy(k, l.(arrived := l.arrived + [d], waiting := l.waiting + [d]))
  {
  }

  lemma TakeTidy(k: Kind, l: Line)
    requires Tidy(k, l) && l.slot.Idle? && l.waiting != []
    ensures Tidy(k, l.(slot := Holding(l.waiting[0]), waiting := l.waiting[1..]))
  {
    assert l.waiting == [l.waiting[0]] + l.waiting[1..];
  }

  lemma ServeTidy(k: Kind, l: Line)
    requires Tidy(k, l) && l.slot.Holding? && Decode(k, l.slot.d).Some?
    ensures Tidy(k, l.(slot := Serving(l.slot.d), served := l.served + [l.slot.d]))
  {
  }

  lemma SettleTidy(k: Kind, l: Line, reply: Option<ServiceSpec.Reply>, ticket: Option<nat>)
    requires Tidy(k, l) && (l.slot.Serving? || l.slot.Holding?)
    requires SettledRight(k, Settled(l.slot.d, reply)) && (l.slot.Serving? <==> Decode(k, l.slot.d).Some?)
    ensures Tidy(k, SettleLine(l, Settled(l.slot.d, reply), ticket))
  {
    MessagesMore(l.settled, Settled(l.slot.d, reply));
    DecodableMore(k, MessagesOf(l.settled), l.slot.d);
    AllRightMore(k, l.settled, Settled(l.slot.d, reply));
  }

  lemma AllRightMore(k: Kind, ts: seq<Settlement>, t: Settlement)
    requires (forall i :: 0 <= i < |ts| ==> SettledRight(k, ts[i])) && SettledRight(k, t)
    ensures forall i :: 0 <= i < |ts + [t]| ==> SettledRight(k, (ts + [t])[i])
  {
  }

  lemma LineStaysTidy(s: System, h: Happening, k: Kind)
    requires SystemOk(s) && Can(s, h)
    ensures Tidy(k, LineAfter(s, h, k))
  {
    assert LineOk(s, k);
    var l := At(s, k);
    match h {
      case Arrive(j, d) => ArriveTidy(k, l, d);
      case Take(j) =>
        if j == k {
          TakeTidy(k, l);
        }
      case Dispatch(j) =>
        if j == k {
          if Decode(k, l.slot.d).Some? {
            ServeTidy(k, l);
          } else {
            SettleTidy(k, l, None, None);
          }
        }
      case Settle(j) =>
        if j == k {
          var p := s.core.procs[Consumer(k)];
          assert ProcOk(s.core, p);
          SettleTidy(k, l, Some(p.pc.reply), Some(p.ticket));
        }
      case _ =>
    }
  }

  lemma LineStays(s: System, h: Happening, k: Kind)
    requires SystemOk(s) && Can(s, h)
    ensures LineOk(After(s, h), k)
  {
    assert At(After(s, h), k) == LineAfter(s, h, k);
    LineStaysTidy(s, h, k);
    LinkStays(s, h, k);
  }

  lemma AfterKeeps(s: System, h: Happening)
    requires SystemOk(s) && Can(s, h)
    ensures SystemOk(After(s, h))
  {
    if CoreEvents(s, h) != [] {
      EventKeeps(s.core, CoreEvents(s, h)[0]);
    }
    forall k ensures LineOk(After(s, h), k) {
      LineStays(s, h, k);
    }
  }

  lemma {:induction false} AllKeep(s: System, hs: seq<Happening>)
    requires SystemOk(s) && Happens(s, hs)
    ensures SystemOk(Finally(s, hs))
    decreases |hs|
  {
    if hs != [] {
      AfterKeeps(s, hs[0]);
      AllKeep(After(s, hs[0]), hs[1..]);
    }
  }

  lemma StartedIsOk(cfg: Settings, services: int)
    ensures SystemOk(Started(cfg, services))
  {
    InitialIsSafe(cfg);
    forall k ensures LineOk(Started(cfg, services), k) {
    }
  }

  /** Conservation and settlement, at every moment of every run and for each of the three queues. */
  lemma DeliveriesAreConserved(cfg: Settings, services: int, hs: seq<Happening>, k: Kind)
    requires Happens(Started(cfg, services), hs)
    ensures var l := At(Finally(Started(cfg, services), hs), k);
            && l.arrived == MessagesOf(l.settled) + InHand(l.slot) + l.waiting
            && l.served == Decodable(k, MessagesOf(l.settled)) + (if l.slot.Serving? then [l.slot.d] else [])
            && forall i :: 0 <= i < |l.settled| ==> SettledRight(k, l.settled[i])
  {
    StartedIsOk(cfg, services);
    AllKeep(Started(cfg, services), hs);
    assert LineOk(Finally(Started(cfg, services), hs), k);
  }
}
