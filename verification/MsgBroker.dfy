/** The consumer loop of the message broker. */
module MsgBroker {
  import opened Results
  import Models
  import opened Database
  import opened StorageSpec
  import opened ServiceSpec
  import opened Protocol
  import opened Deliveries
  import opened Effects
  import Service

  /** A delivery channel, and the record of what its consumer has settled. */
  class DeliveryChannel {
    var waiting: seq<Delivery>
    var settled: seq<Settlement>

    constructor (waiting: seq<Delivery>)
      ensures this.waiting == waiting && settled == []
    {
      this.waiting, settled := waiting, [];
    }

    /** New messages come in. */
    method Deliver(ds: seq<Delivery>)
      modifies this`waiting
      ensures waiting == old(waiting) + ds
    {
      waiting := waiting + ds;
    }

    method Receive() returns (d: Delivery)
      requires waiting != []
      modifies this`waiting
      ensures d == old(waiting)[0] && waiting == old(waiting)[1..]
    {
      d, waiting := waiting[0], waiting[1..];
    }

    method Ack(d: Delivery, reply: Option<Reply>)
      modifies this`settled
      ensures settled == old(settled) + [Settlement(d, reply, true)]
    {
      settled := settled + [Settlement(d, reply, true)];
    }

    method Nack(d: Delivery, reply: Option<Reply>)
      modifies this`settled
      ensures settled == old(settled) + [Settlement(d, reply, false)]
    {
      settled := settled + [Settlement(d, reply, false)];
    }
  }

  /** One turn of a consumer's select: the messages that come in before it, and whether it then takes the
      context's end.  A turn that does not takes a message, or with none there goes on waiting. */
  datatype Turn = Turn(arrivals: seq<Delivery>, ended: bool)

  /** All messages that come in during these turns. */
  function Came(turns: seq<Turn>): seq<Delivery> {
    if turns == [] then [] else Came(turns[..|turns| - 1]) + turns[|turns| - 1].arrivals
  }

  /** How many messages wait after turns none of which takes the end, if `n` waited before. */
  function Left(n: nat, turns: seq<Turn>): nat {
    if turns == [] then n
    else
      var there := Left(n, turns[..|turns| - 1]) + |turns[|turns| - 1].arrivals|;
      if there == 0 then 0 else there - 1
  }

  /** How far a consumer came: the turns before the end and the messages it took in them. */
  datatype Progress = Progress(ended: bool, passes: nat, taken: nat)

  /** It made every turn up to the first that takes the end, and in each took a message if there was one. */
  predicate Made(p: Progress, waiting: nat, turns: seq<Turn>) {
    && p.passes <= |turns| && (forall i :: 0 <= i < p.passes ==> !turns[i].ended)
    && (p.ended <==> p.passes < |turns|) && (p.ended ==> turns[p.passes].ended)
    && p.taken + Left(waiting, turns[..p.passes]) == waiting + |Came(turns[..p.passes])|
  }

  /** All messages there were for a consumer until it stopped. */
  function Backlog(p: Progress, waiting: seq<Delivery>, turns: seq<Turn>): (ds: seq<Delivery>)
    requires Made(p, |waiting|, turns)
    ensures p.taken <= |ds|
  {
    if p.ended then
      TurnMore(turns, p.passes);
      waiting + Came(turns[..p.passes + 1])
    else waiting + Came(turns[..p.passes])
  }

  lemma TurnMore(turns: seq<Turn>, i: nat)
    requires i < |turns|
    ensures Came(turns[..i + 1]) == Came(turns[..i]) + turns[i].arrivals
    ensures forall n: nat :: Left(n, turns[..i + 1]) ==
              var there := Left(n, turns[..i]) + |turns[i].arrivals|; if there == 0 then 0 else there - 1
  {
    assert turns[..i + 1][..i] == turns[..i];
  }

  lemma Split(handled: seq<Delivery>, waiting: seq<Delivery>)
    ensures (handled + waiting)[..|handled|] == handled && (handled + waiting)[|handled|..] == waiting
  {
  }

  lemma MoreCome(
      backlog: seq<Delivery>, came: seq<Delivery>, handled: seq<Delivery>, waiting: seq<Delivery>,
      more: seq<Delivery>)
    requires backlog + came == handled + waiting
    ensures backlog + (came + more) == handled + (waiting + more)
  {
    calc {
      backlog + (came + more);
      (backlog + came) + more;
      (handled + waiting) + more;
      handled + (waiting + more);
    }
  }

  lemma Shift(handled: seq<Delivery>, waiting: seq<Delivery>)
    requires waiting != []
    ensures handled + [waiting[0]] + waiting[1..] == handled + waiting
  {
  }

  class WaitGroup {
    var count: int

    constructor ()
      ensures count == 0
    {
      count := 0;
    }

    method Add(n: int)
      modifies this
      ensures count == old(count) + n
    {
      count := count + n;
    }

    method Done()
      modifies this
      ensures count == old(count) - 1
    {
      count := count - 1;
    }
  }

  class Broker {
    const service: Service.UserService
    const wg: WaitGroup

    constructor (service: Service.UserService, wg: WaitGroup)
      ensures this.service == service && this.wg == wg
    {
      this.service, this.wg := service, wg;
    }

    /** What the loop does with the message it has taken. */
    method HandleMessage(messages: DeliveryChannel, kind: Kind, val: Delivery, env: Env)
      requires service.Valid()
      modifies messages`settled, service.storage.users, service.redis
      ensures service.Valid()
      ensures var (w, settled) := Handle(service.storage.cfg, old(service.State()), kind, val, env);
              service.State() == w && messages.settled == old(messages.settled) + [settled]
      ensures var n := |old(messages.settled)|;
              && |messages.settled| == n + 1 && messages.settled[n].delivery == val
              && Arrives(service.storage.cfg, old(service.State()), kind, val, env,
                         service.State(), messages.settled[n].acked)
    {
      MessageEffect(service.storage.cfg, service.State(), kind, val, env);
      var response: Reply;
      match kind {
        case Registration =>
          if val.asUser.None? {
            messages.Nack(val, None);
            return;
          }
          response := service.RegisterUser(Models.ToCreateRequest(val.asUser.value), env);
        case Updating =>
          if val.asUser.None? {
            messages.Nack(val, None);
            return;
          }
          response := service.UpdateUser(Some(Models.ToProtoUser(val.asUser.value)), env);
        case Deletion =>
          if val.asDelete.None? {
            messages.Nack(val, None);
            return;
          }
          response := service.DeleteUserById(val.asDelete.value, env);
      }
      if response.Failed? {
        messages.Nack(val, Some(response));
        return;
      }
      messages.Ack(val, Some(response));
    }

    /** What the consumer has made of the messages it has handled since its start. */
    ghost predicate HasHandled(
        messages: DeliveryChannel, w0: World, before: seq<Settlement>, kind: Kind, handled: seq<Delivery>,
        env: nat -> Env)
      requires Indexed(w0.db)
      reads messages`settled, service.storage.users, service.redis
    {
      var (w, settled) := Consumed(service.storage.cfg, w0, kind, handled, env);
      service.Valid() && service.State() == w && messages.settled == before + settled
    }

    /** A turn that does not take the end: it takes a message if there is one. */
    method TakeAny(
        messages: DeliveryChannel, kind: Kind, env: nat -> Env, taken: nat,
        ghost w0: World, ghost before: seq<Settlement>, ghost handled: seq<Delivery>)
      returns (took: nat, ghost nowHandled: seq<Delivery>)
      requires Indexed(w0.db) && taken == |handled|
      requires HasHandled(messages, w0, before, kind, handled, env)
      modifies messages, service.storage.users, service.redis
      ensures nowHandled + messages.waiting == handled + old(messages.waiting)
      ensures |nowHandled| == taken + took && took == if old(messages.waiting) == [] then 0 else 1
      ensures HasHandled(messages, w0, before, kind, nowHandled, env)
    {
      took, nowHandled := 0, handled;
      if messages.waiting != [] {
        Shift(handled, messages.waiting);
        var val := messages.Receive();
        ConsumedOneMore(service.storage.cfg, w0, kind, handled, val, env);
        HandleMessage(messages, kind, val, env(taken));
        took, nowHandled := 1, handled + [val];
      }
    }

    /** The turns of a consumer, up to the one that takes the end. */
    method TakeTurns(
        messages: DeliveryChannel, kind: Kind, turns: seq<Turn>, env: nat -> Env,
        ghost w0: World, ghost before: seq<Settlement>)
      returns (p: Progress, ghost handled: seq<Delivery>)
      requires Indexed(w0.db) && HasHandled(messages, w0, before, kind, [], env)
      modifies messages, service.storage.users, service.redis
      ensures Made(p, |old(messages.waiting)|, turns) && p.taken == |handled|
      ensures Backlog(p, old(messages.waiting), turns) == handled + messages.waiting
      ensures HasHandled(messages, w0, before, kind, handled, env)
    {
      ghost var backlog := messages.waiting;
      handled := [];
      var taken := 0;
      for i := 0 to |turns|
        invariant backlog + Came(turns[..i]) == handled + messages.waiting && taken == |handled|
        invariant |messages.waiting| == Left(|backlog|, turns[..i])
        invariant forall j :: 0 <= j < i ==> !turns[j].ended
        invariant HasHandled(messages, w0, before, kind, handled, env)
      {
        TurnMore(turns, i);
        MoreCome(backlog, Came(turns[..i]), handled, messages.waiting, turns[i].arrivals);
        messages.Deliver(turns[i].arrivals);
        if turns[i].ended {
          p := Progress(true, i, taken);
          return;
        }
        var took;
        took, handled := TakeAny(messages, kind, env, taken, w0, before, handled);
        taken := taken + took;
      }
      p := Progress(false, |turns|, taken);
    }

    /** One consumer from its start, through any finite part of its endless loop: it handles, in order and
        each with the state that those before left, the messages that its turns take from all there are, and
        leaves the rest; when it takes the end it returns and takes one off the wait group. */
    method ConsumeMessages(messages: DeliveryChannel, kind: Kind, turns: seq<Turn>, env: nat -> Env)
      returns (p: Progress)
      requires service.Valid()
      modifies messages, service.storage.users, service.redis, wg
      ensures service.Valid() && Made(p, |old(messages.waiting)|, turns)
      ensures var backlog := Backlog(p, old(messages.waiting), turns);
              var (w, settled) :=
                Consumed(service.storage.cfg, old(service.State()), kind, backlog[..p.taken], env);
              && service.State() == w
              && messages.settled == old(messages.settled) + settled
              && messages.waiting == backlog[p.taken..]
      ensures wg.count == old(wg.count) - if p.ended then 1 else 0
    {
      ghost var handled;
      p, handled := TakeTurns(messages, kind, turns, env, service.State(), messages.settled);
      Split(handled, messages.waiting);
      if p.ended {
        wg.Done();
      }
    }

    /** The three consumers, here each in its turn.  The wait group ends as it was plus the number of services
        less those that have returned. */
    method StartToConsume(
        services: int, registrations: DeliveryChannel, updates: DeliveryChannel, deletions: DeliveryChannel,
        turns: Kind -> seq<Turn>, env: Kind -> nat -> Env)
      returns (p1: Progress, p2: Progress, p3: Progress)
      requires service.Valid() && registrations != updates && updates != deletions && deletions != registrations
      modifies registrations, updates, deletions, service.storage.users, service.redis, wg
      ensures service.Valid()
      ensures && Made(p1, |old(registrations.waiting)|, turns(Registration))
              && Made(p2, |old(updates.waiting)|, turns(Updating))
              && Made(p3, |old(deletions.waiting)|, turns(Deletion))
      ensures var ds1 := Backlog(p1, old(registrations.waiting), turns(Registration))[..p1.taken];
              var ds2 := Backlog(p2, old(updates.waiting), turns(Updating))[..p2.taken];
              var ds3 := Backlog(p3, old(deletions.waiting), turns(Deletion))[..p3.taken];
              var (w1, settled1) :=
                Consumed(service.storage.cfg, old(service.State()), Registration, ds1, env(Registration));
              var (w2, settled2) := Consumed(service.storage.cfg, w1, Updating, ds2, env(Updating));
              var (w3, settled3) := Consumed(service.storage.cfg, w2, Deletion, ds3, env(Deletion));
              && service.State() == w3
              && registrations.settled == old(registrations.settled) + settled1
              && updates.settled == old(updates.settled) + settled2
              && deletions.settled == old(deletions.settled) + settled3
      ensures wg.count == old(wg.count) + services
                          - (if p1.ended then 1 else 0) - (if p2.ended then 1 else 0) - (if p3.ended then 1 else 0)
    {
      wg.Add(services);
      p1 := ConsumeMessages(registrations, Registration, turns(Registration), env(Registration));
      p2 := ConsumeMessages(updates, Updating, turns(Updating), env(Updating));
      p3 := ConsumeMessages(deletions, Deletion, turns(Deletion), env(Deletion));
    }
  }
}
