/** Queue messages: how a consumer reads them and what it does with one. */
module Deliveries {
  import opened Results
  import Models
  import opened Database
  import opened StorageSpec
  import opened ServiceSpec
  import opened Protocol

  /** A message as the two JSON decoders of the consumers see its body: each gives a value or an error. */
  datatype Delivery = Delivery(tag: nat, asUser: Option<Models.Document>, asDelete: Option<string>)

  /** The request that a consumer makes of a message. */
  function Decode(kind: Kind, d: Delivery): Option<Call> {
    match kind
    case Registration => if d.asUser.None? then None else Some(Register(Models.ToCreateRequest(d.asUser.value)))
    case Updating => if d.asUser.None? then None else Some(Update(Some(Models.ToProtoUser(d.asUser.value))))
    case Deletion => if d.asDelete.None? then None else Some(Delete(d.asDelete.value))
  }

  /** The document carries the fields of a message's user, with the password hashed. */
  predicate CarriesMessage(cfg: Settings, doc: Models.Document, user: Models.Document) {
    && doc.username == user.username
    && doc.email == user.email
    && doc.password == cfg.hash(user.password)
    && doc.profile.name == user.profile.name
    && doc.profile.address == user.profile.address
    && doc.deleted == user.deleted
  }

  /** How a message was settled: the reply of the service if it was called, and Ack or Nack. */
  datatype Settlement = Settlement(delivery: Delivery, reply: Option<Reply>, acked: bool)

  predicate Succeeded(reply: Option<Reply>) {
    reply.Some? && !reply.value.Failed?
  }

  function Settled(d: Delivery, reply: Option<Reply>): Settlement {
    Settlement(d, reply, Succeeded(reply))
  }

  /** Nacked although only the cache write failed. */
  predicate CacheOnly(t: Settlement) {
    !t.acked && t.reply.Some? && t.reply.value.Failed? && t.reply.value.failure.CacheError?
  }

  /** One message, with nothing else going on. */
  function Handle(cfg: Settings, w: World, kind: Kind, d: Delivery, env: Env): (World, Settlement)
    requires Indexed(w.db)
  {
    match Decode(kind, d)
    case None => (w, Settled(d, None))
    case Some(call) =>
      var (w', reply) := Serve(cfg, w, call, env);
      (w', Settled(d, Some(reply)))
  }

  lemma HandleKeepsIndex(cfg: Settings, w: World, kind: Kind, d: Delivery, env: Env)
    requires Indexed(w.db)
    ensures Indexed(Handle(cfg, w, kind, d, env).0.db)
  {
  }

  /** A run of messages, one after another. */
  function Consumed(cfg: Settings, w: World, kind: Kind, ds: seq<Delivery>, env: nat -> Env)
    : (r: (World, seq<Settlement>))
    requires Indexed(w.db)
    ensures Indexed(r.0.db) && |r.1| == |ds|
  {
    if ds == [] then (w, [])
    else
      var n := |ds| - 1;
      var (w', before) := Consumed(cfg, w, kind, ds[..n], env);
      HandleKeepsIndex(cfg, w', kind, ds[n], env(n));
      var (w'', last) := Handle(cfg, w', kind, ds[n], env(n));
      (w'', before + [last])
  }

  lemma ConsumedOneMore(cfg: Settings, w: World, kind: Kind, ds: seq<Delivery>, d: Delivery, env: nat -> Env)
    requires Indexed(w.db)
    ensures var (before, settled) := Consumed(cfg, w, kind, ds, env);
            var (after, last) := Handle(cfg, before, kind, d, env(|ds|));
            Consumed(cfg, w, kind, ds + [d], env) == (after, settled + [last])
  {
    assert (ds + [d])[..|ds|] == ds;
  }

  /** Every message is settled once, in order, and acked exactly when it decodes and the service succeeds on
      the state that the messages before it left. */
  lemma {:induction false} SettledExactly(
      cfg: Settings, w: World, kind: Kind, ds: seq<Delivery>, env: nat -> Env, i: nat)
    requires Indexed(w.db) && i < |ds|
    ensures var s := Consumed(cfg, w, kind, ds, env).1[i];
            && s.delivery == ds[i]
            && (s.acked <==> && Decode(kind, ds[i]).Some?
                             && !Serve(cfg, Consumed(cfg, w, kind, ds[..i], env).0,
                                       Decode(kind, ds[i]).value, env(i)).1.Failed?)
  {
    var n := |ds| - 1;
    if i < n {
      SettledExactly(cfg, w, kind, ds[..n], env, i);
      assert ds[..n][..i] == ds[..i];
    }
  }
}
