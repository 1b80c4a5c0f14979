/** The consumers, the service and the store together. */
module WholeSystem {
  import opened Results
  import opened Database
  import opened StorageSpec
  import ServiceSpec
  import opened Protocol
  import opened History
  import opened Completeness
  import opened Serializability
  import opened Deliveries
  import opened Consumers
  import opened Outcomes
  import opened Shutdown

  /** No direct call is an update. */
  predicate UpdatesByQueue(h: Happening) {
    h.Direct? && h.e.Begin? ==> !h.e.call.Update?
  }

  lemma {:induction false} ProjectIsRouted(s: System, hs: seq<Happening>)
    requires Indexed(s.core.world.db) && Happens(s, hs) && forall h :: h in hs ==> UpdatesByQueue(h)
    ensures forall e :: e in Project(s, hs) ==> Routed(e)
    decreases |hs|
  {
    if hs != [] {
      AfterKeepsIndex(s, hs[0]);
      assert hs[0] in hs;
      ProjectIsRouted(After(s, hs[0]), hs[1..]);
      assert forall e :: e in CoreEvents(s, hs[0]) ==> Routed(e);
    }
  }

  /** The events of the service in a run of the system from its start. */
  function ServiceEvents(cfg: Settings, services: int, hs: seq<Happening>): (events: seq<Event>)
    requires Happens(Started(cfg, services), hs)
    ensures Valid(Initial(cfg), events)
    ensures Run(Initial(cfg), events) == Finally(Started(cfg, services), hs).core
  {
    SystemRunIsServiceRun(Started(cfg, services), hs);
    Project(Started(cfg, services), hs)
  }

  /** The three consumers and any direct calls, in any interleaving: the store, and the end of every storage
      operation, are those of one operation at a time exactly when no update's write overwrites a field that
      has changed since it read; and in any case the record is complete. */
  lemma SystemIsSerializableExactly(cfg: Settings, services: int, hs: seq<Happening>)
    requires Happens(Started(cfg, services), hs)
    ensures var c := Finally(Started(cfg, services), hs).core;
            (Serial(c) <==> NeverLoses(Initial(cfg), ServiceEvents(cfg, services, hs))) && Complete(c)
  {
    var events := ServiceEvents(cfg, services, hs);
    SerializableExactly(cfg, events);
    EveryRunIsComplete(cfg, events);
  }

  /** So with the updates by queue only, every run is serial. */
  lemma SystemIsSerializable(cfg: Settings, services: int, hs: seq<Happening>)
    requires Happens(Started(cfg, services), hs) && forall h :: h in hs ==> UpdatesByQueue(h)
    ensures var c := Finally(Started(cfg, services), hs).core;
            Replay(cfg, c.log) == c.world.db && Faithful(cfg, c.log) && Complete(c)
  {
    ProjectIsRouted(Started(cfg, services), hs);
    EveryRunIsSerializable(cfg, ServiceEvents(cfg, services, hs));
  }

  /** Place `at` of the order is the settled message's, and its operation, run alone on the store left by
      those before it, succeeds exactly if the message was acked, or nacked for the cache alone. */
  ghost predicate SettledAsAlone(cfg: Settings, k: Kind, log: seq<Entry>, at: nat, ticket: nat, t: Settlement) {
    && at < |log| && log[at].ticket == ticket && Decode(k, t.delivery) == Some(log[at].call)
    && (Atomic(cfg, Replay(cfg, log[..at]), log[at].call, log[at].env).1.Done? <==> t.acked || CacheOnly(t))
  }

  /** In a serial run each message of each queue that decodes is settled as its request alone would be. */
  lemma MessagesAreSettledAsAlone(cfg: Settings, services: int, hs: seq<Happening>, k: Kind, i: nat)
    requires Happens(Started(cfg, services), hs)
    requires NeverLoses(Initial(cfg), ServiceEvents(cfg, services, hs))
    requires var l := At(Finally(Started(cfg, services), hs), k);
             i < |l.settled| && Decode(k, l.settled[i].delivery).Some?
    ensures var s := Finally(Started(cfg, services), hs);
            var l := At(s, k);
            && i < |l.tickets| && l.tickets[i].Some?
            && exists at :: SettledAsAlone(cfg, k, s.core.log, at, l.tickets[i].value, l.settled[i])
  {
    var s := Finally(Started(cfg, services), hs);
    var l := At(s, k);
    SettlementsFollowTheOrder(cfg, services, hs, k);
    assert HasPlace(k, s.core.log, l.tickets[i], l.settled[i]);
    var at :| EndedAs(k, s.core.log, at, l.tickets[i].value, l.settled[i]);
    SystemIsSerializableExactly(cfg, services, hs);
    ConfigStays(cfg, services, hs);
    FaithfulAt(cfg, s.core.log, at);
    assert SettledAsAlone(cfg, k, s.core.log, at, l.tickets[i].value, l.settled[i]);
  }

  lemma ConfigStays(cfg: Settings, services: int, hs: seq<Happening>)
    requires Happens(Started(cfg, services), hs)
    ensures Finally(Started(cfg, services), hs).core.cfg == cfg
  {
    InitialIsSafe(cfg);
    RunKeeps(Initial(cfg), ServiceEvents(cfg, services, hs));
  }

  lemma WorkIsOneStep(s: System, k: Kind, env: Env)
    requires SystemOk(s) && Can(s, Work(k, env))
    ensures var s' := After(s, Work(k, env));
            var (w, pc) := Exec(s.core.cfg, s.core.world, s.core.procs[Consumer(k)].pc, env);
            && SystemOk(s') && At(s', k) == At(s, k) && s'.cancelled == s.cancelled && s'.core.cfg == s.core.cfg
            && s'.core.world == w && Consumer(k) in s'.core.procs && s'.core.procs[Consumer(k)].pc == pc
            && StepsLeft(pc) < StepsLeft(s.core.procs[Consumer(k)].pc)
  {
    AfterKeeps(s, Work(k, env));
    WorkIsProgress(s, k, env);
  }

  /** The steps of a consumer's service call, with nothing between them. */
  lemma {:induction false} WorkThrough(s: System, k: Kind, env: Env, n: nat) returns (hs: seq<Happening>)
    requires SystemOk(s) && At(s, k).slot.Serving? && Consumer(k) in s.core.procs
    requires env.cancelled == s.cancelled && StepsLeft(s.core.procs[Consumer(k)].pc) <= n
    ensures Happens(s, hs)
    ensures var s' := Finally(s, hs);
            && At(s', k) == At(s, k) && Consumer(k) in s'.core.procs
            && !InFlight(s'.core.procs[Consumer(k)].pc)
            && Steps(s.core.cfg, s.core.world, s.core.procs[Consumer(k)].pc, env, n)
               == (s'.core.world, s'.core.procs[Consumer(k)].pc)
    decreases n
  {
    var p := s.core.procs[Consumer(k)];
    if !InFlight(p.pc) {
      hs := [];
      Stays(s.core.cfg, s.core.world, p.pc.reply, env, n);
    } else {
      var h := Work(k, env);
      WorkIsOneStep(s, k, env);
      var rest := WorkThrough(After(s, h), k, env, n - 1);
      hs := [h] + rest;
      OneMore(s, h, rest);
      var (w, pc) := Exec(s.core.cfg, s.core.world, p.pc, env);
      OneStep(s.core.cfg, s.core.world, p.pc, env, w, pc, n - 1);
    }
  }

  lemma LastHappening(s: System, hs: seq<Happening>, h: Happening)
    requires Indexed(s.core.world.db) && Happens(s, hs) && Can(Finally(s, hs), h)
    ensures Happens(s, hs + [h]) && Finally(s, hs + [h]) == After(Finally(s, hs), h)
  {
    var s' := Finally(s, hs);
    AfterKeepsIndex(s', h);
    assert Happens(After(s', h), []);
    OneMore(s', h, []);
    assert [h] + [] == [h];
    FinallyThen(s, hs, [h]);
  }

  /** Taking a message and decoding it: it is settled, or its request begins. */
  lemma TakeAndDispatch(s: System, k: Kind)
    requires SystemOk(s) && At(s, k).slot.Idle? && At(s, k).waiting != []
    ensures Can(s, Take(k)) && SystemOk(After(s, Take(k))) && Can(After(s, Take(k)), Dispatch(k))
    ensures var d := At(s, k).waiting[0];
            var s2 := After(After(s, Take(k)), Dispatch(k));
            && SystemOk(s2) && s2.core.cfg == s.core.cfg && s2.core.world == s.core.world
            && s2.cancelled == s.cancelled && At(s2, k).waiting == At(s, k).waiting[1..]
            && match Decode(k, d)
               case None => At(s2, k).slot.Idle? && At(s2, k).settled == At(s, k).settled + [Settled(d, None)]
               case Some(call) =>
                 && At(s2, k).slot == Serving(d) && At(s2, k).settled == At(s, k).settled
                 && Consumer(k) in s2.core.procs && s2.core.procs[Consumer(k)].pc == Start(call)
  {
    var s1 := After(s, Take(k));
    assert LineOk(s, k);
    AfterKeeps(s, Take(k));
    AfterKeeps(s1, Dispatch(k));
  }

  lemma TwoMore(s: System, h1: Happening, h2: Happening, rest: seq<Happening>)
    requires Indexed(s.core.world.db) && Can(s, h1)
    requires Indexed(After(s, h1).core.world.db) && Can(After(s, h1), h2)
    requires Indexed(After(After(s, h1), h2).core.world.db) && Happens(After(After(s, h1), h2), rest)
    ensures Happens(s, [h1] + ([h2] + rest))
    ensures Finally(s, [h1] + ([h2] + rest)) == Finally(After(After(s, h1), h2), rest)
  {
    OneMore(After(s, h1), h2, rest);
    OneMore(s, h1, [h2] + rest);
  }

  /** The service call for the message in hand, and its settlement. */
  lemma ServeAndSettle(s: System, k: Kind, call: ServiceSpec.Call, env: Env) returns (hs: seq<Happening>)
    requires SystemOk(s) && At(s, k).slot.Serving? && Consumer(k) in s.core.procs
    requires s.core.procs[Consumer(k)].pc == Start(call) && env.cancelled == s.cancelled
    ensures Happens(s, hs)
    ensures var s' := Finally(s, hs);
            var (w, reply) := ServiceSpec.Serve(s.core.cfg, s.core.world, call, env);
            && s'.core.world == w && At(s', k).slot.Idle? && At(s', k).waiting == At(s, k).waiting
            && At(s', k).settled == At(s, k).settled + [Settled(At(s, k).slot.d, Some(reply))]
  {
    StartIsFar(call);
    AloneIsWhole(s.core.cfg, s.core.world, call, env);
    var work := WorkThrough(s, k, env, 4);
    LastHappening(s, work, Settle(k));
    hs := work + [Settle(k)];
  }

  /** One pass of the consumer loop is a run of the machine: taking a message, decoding it, the steps of its
      service call, and settling it, with nothing else between. */
  lemma LoopPassIsARun(s: System, k: Kind, env: Env) returns (hs: seq<Happening>)
    requires SystemOk(s) && At(s, k).slot.Idle? && At(s, k).waiting != [] && env.cancelled == s.cancelled
    ensures Happens(s, hs)
    ensures var s' := Finally(s, hs);
            var (w, settled) := Handle(s.core.cfg, s.core.world, k, At(s, k).waiting[0], env);
            && s'.core.world == w
            && At(s', k).settled == At(s, k).settled + [settled]
            && At(s', k).waiting == At(s, k).waiting[1..] && At(s', k).slot.Idle?
  {
    TakeAndDispatch(s, k);
    var s2 := After(After(s, Take(k)), Dispatch(k));
    var rest := [];
    match Decode(k, At(s, k).waiting[0]) {
      case None => assert Happens(s2, []) && Finally(s2, []) == s2;
      case Some(call) => rest := ServeAndSettle(s2, k, call, env);
    }
    TwoMore(s, Take(k), Dispatch(k), rest);
    hs := [Take(k)] + ([Dispatch(k)] + rest);
  }
}
