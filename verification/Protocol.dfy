/** The service as a step machine: any number of requests in flight, one store or cache call a step. */
module Protocol {
  import opened Results
  import opened ObjectIds
  import opened Models
  import opened Database
  import opened StorageSpec
  import opened ServiceSpec
  import C = Cache

  /** Where a request stands.  `Checked` is past the context check, `Read` past the read, and the states
      `Saving` and `Removing` have the cache write still to do. */
  datatype Pc =
    | RegisterStart(data: CreateRequest)
    | RegisterChecked(data: CreateRequest)
    | RegisterSaving(user: ProtoUser)
    | UpdateStart(request: Option<ProtoUser>)
    | UpdateChecked(change: ProtoUser)
    | UpdateRead(base: Document, change: ProtoUser)
    | UpdateSaving(user: ProtoUser)
    | DeleteStart(key: string)
    | DeleteRead(key: string)
    | DeleteRemoving(key: string)
    | LoginStart(email: string, password: string)
    | LoginChecked(email: string, password: string)
    | LoginSaving(user: ProtoUser)
    | GetStart(key: string)
    | GetMissed(key: string)
    | GetChecked(key: string)
    | Finished(reply: Reply)

  function Start(call: Call): Pc {
    match call
    case Register(data) => RegisterStart(data)
    case Update(user) => UpdateStart(user)
    case Delete(key) => DeleteStart(key)
    case Login(email, password) => LoginStart(email, password)
    case Get(key) => GetStart(key)
  }

  /** True of the states whose next step asks the store, or nobody: the rest ask Redis or are done. */
  predicate OnStore(pc: Pc) {
    match pc
    case RegisterStart(_) | RegisterChecked(_) | UpdateStart(_) | UpdateChecked(_) | UpdateRead(_, _)
       | DeleteStart(_) | DeleteRead(_) | LoginStart(_, _) | LoginChecked(_, _)
       | GetMissed(_) | GetChecked(_) => true
    case _ => false
  }

  /** One step on the store side.  A step that only checks the context or an argument asks nobody; every
      other step is one call. */
  function StoreStep(cfg: Settings, db: Db, pc: Pc, env: Env): (Db, Pc)
    requires Indexed(db) && OnStore(pc)
  {
    match pc
    case RegisterStart(data) =>
      (db, if env.cancelled then Finished(Failed(Cancelled)) else RegisterChecked(data))
    case RegisterChecked(data) =>
      var (db', r) := CreateUser(cfg, db, data, env.(cancelled := false));
      (db', if r.Ok? then RegisterSaving(r.value) else Finished(Failed(r.error)))
    case UpdateStart(request) =>
      (db, if request.None? || request.value.userId == "" then Finished(Failed(InvalidRequest))
           else if FromHex(request.value.userId).None? then Finished(Failed(BadId))
           else if env.cancelled then Finished(Failed(Cancelled))
           else UpdateChecked(request.value))
    case UpdateChecked(change) =>
      var r := GetByField(db, ById, change.userId, env.(cancelled := false));
      (db, if r.Ok? then UpdateRead(r.value, change) else Finished(Failed(r.error)))
    case UpdateRead(base, change) =>
      var (db', r) := WriteMerged(db, base, change, env.writeOk);
      (db', if r.Ok? then UpdateSaving(r.value) else Finished(Failed(r.error)))
    case DeleteStart(key) =>
      (db, if FromHex(key).None? then Finished(Failed(BadId))
           else if !env.readOk then Finished(Failed(StoreError))
           else if FromHex(key).value !in db.docs then Finished(Failed(NotFound))
           else DeleteRead(key))
    case DeleteRead(key) =>
      if FromHex(key).None? then (db, Finished(Failed(BadId)))
      else
        var (db', r) := WriteDeleted(cfg, db, FromHex(key).value, env.writeOk);
        (db', if r.Some? then Finished(Failed(r.value)) else DeleteRemoving(key))
    case LoginStart(email, password) =>
      (db, if env.cancelled then Finished(Failed(Cancelled)) else LoginChecked(email, password))
    case LoginChecked(email, password) =>
      var r := StorageSpec.LoginUser(cfg, db, email, password, env.(cancelled := false));
      (db, if r.Ok? then LoginSaving(r.value) else Finished(Failed(r.error)))
    case GetMissed(key) =>
      (db, if FromHex(key).None? then Finished(Failed(BadId))
           else if env.cancelled then Finished(Failed(Cancelled))
           else GetChecked(key))
    case GetChecked(key) =>
      (db, Finished(FromStore(db, key, env.(cancelled := false))))
  }

  function SavedReply(user: ProtoUser, o: C.Outcome, done: Reply): Pc {
    Finished(if o.Acknowledged? then done else Failed(CacheError(user.userId)))
  }

  /** One Redis call. */
  function CacheStep(cache: map<string, ProtoUser>, pc: Pc, env: Env): (map<string, ProtoUser>, Pc)
    requires !OnStore(pc)
  {
    match pc
    case RegisterSaving(user) =>
      (C.Stored(cache, user, env.cache), SavedReply(user, env.cache, Registered(user)))
    case UpdateSaving(user) =>
      (C.Stored(cache, user, env.cache), SavedReply(user, env.cache, Updated(user)))
    case LoginSaving(user) =>
      (C.Stored(cache, user, env.cache), Finished(LoggedIn(user)))
    case DeleteRemoving(key) =>
      (C.Removed(cache, key, env.cache),
       Finished(if env.cache.Acknowledged? then Removed else Failed(CacheError(key))))
    case GetStart(key) =>
      (cache, match if env.cacheReadOk then C.Cached(cache, key) else None
              case Some(user) => Finished(Found(user))
              case None => GetMissed(key))
    case Finished(_) => (cache, pc)
  }

  /** One step of one request. */
  function Exec(cfg: Settings, w: World, pc: Pc, env: Env): (World, Pc)
    requires Indexed(w.db)
  {
    if OnStore(pc) then
      var (db, pc') := StoreStep(cfg, w.db, pc, env);
      (World(db, w.cache), pc')
    else
      var (cache, pc') := CacheStep(w.cache, pc, env);
      (World(w.db, cache), pc')
  }

  predicate InFlight(pc: Pc) {
    !pc.Finished?
  }

  // ---- Many requests ----

  datatype Kind = Registration | Updating | Deletion

  /** A consumer runs one request at a time; each direct call has an identity of its own. */
  datatype Caller = Consumer(kind: Kind) | Client(n: nat)

  /** A request in flight.  `ticket` numbers the requests in the order of their arrival. */
  datatype Proc = Proc(ticket: nat, call: Call, pc: Pc)

  datatype Verdict = Done(user: Option<ProtoUser>) | Undone

  /** A decided storage operation: the environment is the one in which it would have had the same end had
      it run alone at the moment of its deciding call. */
  datatype Entry = Entry(ticket: nat, call: Call, env: Env, verdict: Verdict)

  /** `issued`, `log` and `replies` are the record of the run: the requests in the order of arrival, the
      storage operations in the order of their deciding calls, and the replies given, by ticket. */
  datatype Core = Core(
    cfg: Settings, world: World, procs: map<Caller, Proc>,
    issued: seq<Call>, log: seq<Entry>, replies: map<nat, Reply>)

  datatype Event =
    | Begin(who: Caller, call: Call)
    | Act(who: Caller, env: Env)
    | End(who: Caller)
    | Expire(key: string)

  predicate Enabled(c: Core, e: Event) {
    match e
    case Begin(who, _) => who !in c.procs
    case Act(who, _) => who in c.procs && InFlight(c.procs[who].pc)
    case End(who) => who in c.procs && !InFlight(c.procs[who].pc)
    case Expire(_) => true
  }

  function VerdictOf(pc: Pc): Verdict {
    match pc
    case RegisterSaving(u) => Done(Some(u))
    case UpdateSaving(u) => Done(Some(u))
    case LoginSaving(u) => Done(Some(u))
    case DeleteRemoving(_) => Done(None)
    case Finished(Found(u)) => Done(Some(u))
    case _ => Undone
  }

  /** `env` with the answers that the request has already had. */
  function Whole(pc: Pc, env: Env): Env {
    match pc
    case RegisterChecked(_) | UpdateChecked(_) | LoginChecked(_, _) | GetChecked(_) => env.(cancelled := false)
    case UpdateRead(_, _) => env.(cancelled := false, readOk := true)
    case DeleteRead(_) => env.(readOk := true)
    case _ => env
  }

  /** The log entry of a step, if the step ends a storage operation. */
  function Decision(p: Proc, env: Env, pc': Pc): seq<Entry> {
    if OnStore(p.pc) && !OnStore(pc') then [Entry(p.ticket, p.call, Whole(p.pc, env), VerdictOf(pc'))] else []
  }

  function Next(c: Core, e: Event): Core
    requires Indexed(c.world.db) && Enabled(c, e)
  {
    match e
    case Begin(who, call) =>
      c.(procs := c.procs[who := Proc(|c.issued|, call, Start(call))], issued := c.issued + [call])
    case Act(who, env) =>
      var p := c.procs[who];
      var (w, pc) := Exec(c.cfg, c.world, p.pc, env);
      c.(world := w, procs := c.procs[who := p.(pc := pc)], log := c.log + Decision(p, env, pc))
    case End(who) =>
      var p := c.procs[who];
      c.(procs := c.procs - {who}, replies := c.replies[p.ticket := p.pc.reply])
    case Expire(key) =>
      c.(world := c.world.(cache := c.world.cache - {key}))
  }

  function Initial(cfg: Settings): Core {
    Core(cfg, World(EMPTY, map[]), map[], [], [], map[])
  }

  lemma StepKeepsIndex(cfg: Settings, w: World, pc: Pc, env: Env)
    requires Indexed(w.db)
    ensures Indexed(Exec(cfg, w, pc, env).0.db)
  {
  }

  /** What a step holds comes from the request it serves. */
  predicate Belongs(call: Call, pc: Pc) {
    match pc
    case RegisterStart(data) => call == Register(data)
    case RegisterChecked(data) => call == Register(data)
    case RegisterSaving(_) => call.Register?
    case UpdateStart(request) => call == Update(request)
    case UpdateChecked(change) => call == Update(Some(change)) && FromHex(change.userId).Some?
    case UpdateRead(base, change) => call == Update(Some(change)) && FromHex(change.userId) == Some(base.id)
    case UpdateSaving(user) =>
      call.Update? && call.user.Some? && FromHex(call.user.value.userId) == FromHex(user.userId)
    case DeleteStart(key) => call == Delete(key)
    case DeleteRead(key) => call == Delete(key) && FromHex(key).Some?
    case DeleteRemoving(key) => call == Delete(key) && FromHex(key).Some?
    case LoginStart(email, password) => call == Login(email, password)
    case LoginChecked(email, password) => call == Login(email, password)
    case LoginSaving(_) => call.Login?
    case GetStart(key) => call == Get(key)
    case GetMissed(key) => call == Get(key)
    case GetChecked(key) => call == Get(key) && FromHex(key).Some?
    case Finished(Registered(_)) => call.Register?
    case Finished(Updated(_)) => call.Update?
    case Finished(Removed) => call.Delete?
    case Finished(LoggedIn(_)) => call.Login?
    case Finished(Found(user)) => call.Get? && FromHex(call.key) == FromHex(user.userId)
    case Finished(Failed(_)) => true
  }

  predicate Valid(c: Core, events: seq<Event>)
    requires Indexed(c.world.db)
    decreases |events|
  {
    events == [] ||
    (Enabled(c, events[0]) && (KeepsIndex(c, events[0]); Valid(Next(c, events[0]), events[1..])))
  }

  function Run(c: Core, events: seq<Event>): Core
    requires Indexed(c.world.db) && Valid(c, events)
    ensures Indexed(Run(c, events).world.db)
    decreases |events|
  {
    if events == [] then c
    else
      KeepsIndex(c, events[0]);
      Run(Next(c, events[0]), events[1..])
  }

  lemma KeepsIndex(c: Core, e: Event)
    requires Indexed(c.world.db) && Enabled(c, e)
    ensures Indexed(Next(c, e).world.db)
  {
    if e.Act? {
      StepKeepsIndex(c.cfg, c.world, c.procs[e.who].pc, e.env);
    }
  }

  /** What an event may touch: a request's own place in flight, the world only by a step of a request or the
      end of one entry, and the log only by a step. */
  lemma EventTouches(c: Core, e: Event)
    requires Indexed(c.world.db) && Enabled(c, e)
    ensures var c' := Next(c, e);
            && c'.cfg == c.cfg && c.issued <= c'.issued
            && (e.Expire? ==>
                  && c'.world.db == c.world.db && c'.procs == c.procs && c'.log == c.log && c'.replies == c.replies
                  && e.key !in c'.world.cache
                  && forall k :: k != e.key ==>
                       && (k in c'.world.cache <==> k in c.world.cache)
                       && (k in c.world.cache ==> c'.world.cache[k] == c.world.cache[k]))
            && (!e.Expire? ==> forall who :: who != e.who ==>
                  && (who in c'.procs <==> who in c.procs)
                  && (who in c.procs ==> c'.procs[who] == c.procs[who]))
            && (e.Begin? || e.End? ==> c'.world == c.world && c'.log == c.log)
            && (!e.End? ==> c'.replies == c.replies)
  {
  }

  lemma {:induction false} RunThen(c: Core, first: seq<Event>, second: seq<Event>)
    requires Indexed(c.world.db) && Valid(c, first) && Valid(Run(c, first), second)
    ensures Valid(c, first + second) && Run(c, first + second) == Run(Run(c, first), second)
    decreases |first|
  {
    if first == [] {
      assert first + second == second;
    } else {
      KeepsIndex(c, first[0]);
      RunThen(Next(c, first[0]), first[1..], second);
      assert (first + second)[1..] == first[1..] + second;
    }
  }

  lemma OneEvent(c: Core, e: Event)
    requires Indexed(c.world.db) && Enabled(c, e)
    ensures Valid(c, [e]) && Run(c, [e]) == Next(c, e)
  {
    KeepsIndex(c, e);
    assert [e][1..] == [];
    assert Valid(Next(c, e), []);
  }

  // ---- A request alone ----

  function Steps(cfg: Settings, w: World, pc: Pc, env: Env, n: nat): (World, Pc)
    requires Indexed(w.db)
    decreases n
  {
    if n == 0 then (w, pc)
    else
      StepKeepsIndex(cfg, w, pc, env);
      var (w', pc') := Exec(cfg, w, pc, env);
      Steps(cfg, w', pc', env, n - 1)
  }

  /** A request that is done stays as it is. */
  lemma {:induction false} Stays(cfg: Settings, w: World, reply: Reply, env: Env, n: nat)
    requires Indexed(w.db)
    ensures Steps(cfg, w, Finished(reply), env, n) == (w, Finished(reply))
  {
    if n > 0 {
      Stays(cfg, w, reply, env, n - 1);
    }
  }

  lemma OneStep(cfg: Settings, w: World, pc: Pc, env: Env, w': World, pc': Pc, n: nat)
    requires Indexed(w.db) && Exec(cfg, w, pc, env) == (w', pc')
    ensures Indexed(w'.db) && Steps(cfg, w, pc, env, n + 1) == Steps(cfg, w', pc', env, n)
  {
    StepKeepsIndex(cfg, w, pc, env);
  }

  /** The last store step of a request and what is left after it. */
  lemma LastSteps(cfg: Settings, w: World, pc: Pc, env: Env, db: Db, pc': Pc, n: nat)
    requires Indexed(w.db) && OnStore(pc) && StoreStep(cfg, w.db, pc, env) == (db, pc')
    requires !OnStore(pc') && !pc'.GetStart? && n > 1
    ensures var (cache, last) := CacheStep(w.cache, pc', env);
            Steps(cfg, w, pc, env, n) == (World(db, cache), last)
  {
    var w' := World(db, w.cache);
    OneStep(cfg, w, pc, env, w', pc', n - 1);
    var (cache, last) := CacheStep(w.cache, pc', env);
    OneStep(cfg, w', pc', env, World(db, cache), last, n - 2);
    Stays(cfg, World(db, cache), last.reply, env, n - 2);
  }

  ghost predicate Alone(cfg: Settings, w: World, call: Call, env: Env)
    requires Indexed(w.db)
  {
    Steps(cfg, w, Start(call), env, 4)
    == (Serve(cfg, w, call, env).0, Finished(Serve(cfg, w, call, env).1))
  }

  lemma AloneRegister(cfg: Settings, w: World, data: CreateRequest, env: Env)
    requires Indexed(w.db)
    ensures Alone(cfg, w, Register(data), env)
  {
    if env.cancelled {
      LastSteps(cfg, w, RegisterStart(data), env, w.db, Finished(Failed(Cancelled)), 4);
    } else {
      assert env.(cancelled := false) == env;
      OneStep(cfg, w, RegisterStart(data), env, w, RegisterChecked(data), 3);
      var (db, pc) := StoreStep(cfg, w.db, RegisterChecked(data), env);
      LastSteps(cfg, w, RegisterChecked(data), env, db, pc, 3);
    }
  }

  lemma AloneUpdateWrite(cfg: Settings, w: World, base: Document, change: ProtoUser, env: Env)
    requires Indexed(w.db)
    ensures var (db, r) := WriteMerged(w.db, base, change, env.writeOk);
            Steps(cfg, w, UpdateRead(base, change), env, 2)
            == (if r.Ok? then SaveUser(World(db, w.cache), r.value, env.cache) else World(db, w.cache),
                if r.Ok? then SavedReply(r.value, env.cache, Updated(r.value)) else Finished(Failed(r.error)))
  {
    var (db, pc) := StoreStep(cfg, w.db, UpdateRead(base, change), env);
    LastSteps(cfg, w, UpdateRead(base, change), env, db, pc, 2);
  }

  predicate Refused(user: Option<ProtoUser>, env: Env) {
    user.None? || user.value.userId == "" || FromHex(user.value.userId).None? || env.cancelled
  }

  /** An update that a check ends. */
  lemma AloneUpdateRefused(cfg: Settings, w: World, user: Option<ProtoUser>, env: Env)
    requires Indexed(w.db) && Refused(user, env)
    ensures Alone(cfg, w, Update(user), env)
  {
    LastSteps(cfg, w, UpdateStart(user), env, w.db, StoreStep(cfg, w.db, UpdateStart(user), env).1, 4);
  }

  /** An update that passes the checks. */
  lemma AloneUpdateChecked(cfg: Settings, w: World, change: ProtoUser, env: Env)
    requires Indexed(w.db) && !Refused(Some(change), env)
    ensures Alone(cfg, w, Update(Some(change)), env)
  {
    assert env.(cancelled := false) == env;
    OneStep(cfg, w, UpdateStart(Some(change)), env, w, UpdateChecked(change), 3);
    var found := GetByField(w.db, ById, change.userId, env);
    if found.Err? {
      LastSteps(cfg, w, UpdateChecked(change), env, w.db, Finished(Failed(found.error)), 3);
    } else {
      OneStep(cfg, w, UpdateChecked(change), env, w, UpdateRead(found.value, change), 2);
      AloneUpdateWrite(cfg, w, found.value, change, env);
    }
  }

  lemma AloneDeleteWrite(cfg: Settings, w: World, key: string, env: Env)
    requires Indexed(w.db) && FromHex(key).Some?
    ensures var (db, r) := WriteDeleted(cfg, w.db, FromHex(key).value, env.writeOk);
            Steps(cfg, w, DeleteRead(key), env, 3)
            == (World(db, if r.None? then C.Removed(w.cache, key, env.cache) else w.cache),
                Finished(if r.Some? then Failed(r.value)
                         else if env.cache.Acknowledged? then Removed else Failed(CacheError(key))))
  {
    var (db, pc) := StoreStep(cfg, w.db, DeleteRead(key), env);
    LastSteps(cfg, w, DeleteRead(key), env, db, pc, 3);
  }

  lemma AloneDelete(cfg: Settings, w: World, key: string, env: Env)
    requires Indexed(w.db)
    ensures Alone(cfg, w, Delete(key), env)
  {
    var pc1 := StoreStep(cfg, w.db, DeleteStart(key), env).1;
    if pc1.Finished? {
      LastSteps(cfg, w, DeleteStart(key), env, w.db, pc1, 4);
    } else {
      OneStep(cfg, w, DeleteStart(key), env, w, DeleteRead(key), 3);
      AloneDeleteWrite(cfg, w, key, env);
    }
  }

  lemma AloneLoginChecked(cfg: Settings, w: World, email: string, password: string, env: Env)
    requires Indexed(w.db) && !env.cancelled
    ensures var r := StorageSpec.LoginUser(cfg, w.db, email, password, env);
            Steps(cfg, w, LoginChecked(email, password), env, 3)
            == (if r.Ok? then SaveUser(w, r.value, env.cache) else w,
                Finished(if r.Ok? then LoggedIn(r.value) else Failed(r.error)))
  {
    assert env.(cancelled := false) == env;
    var (db, pc) := StoreStep(cfg, w.db, LoginChecked(email, password), env);
    LastSteps(cfg, w, LoginChecked(email, password), env, db, pc, 3);
  }

  lemma AloneLogin(cfg: Settings, w: World, email: string, password: string, env: Env)
    requires Indexed(w.db)
    ensures Alone(cfg, w, Login(email, password), env)
  {
    if env.cancelled {
      LastSteps(cfg, w, LoginStart(email, password), env, w.db, Finished(Failed(Cancelled)), 4);
    } else {
      OneStep(cfg, w, LoginStart(email, password), env, w, LoginChecked(email, password), 3);
      AloneLoginChecked(cfg, w, email, password, env);
    }
  }

  lemma AloneGetMissed(cfg: Settings, w: World, key: string, env: Env)
    requires Indexed(w.db)
    ensures Steps(cfg, w, GetMissed(key), env, 3) == (w, Finished(FromStore(w.db, key, env)))
  {
    if FromHex(key).None? || env.cancelled {
      LastSteps(cfg, w, GetMissed(key), env, w.db, Finished(FromStore(w.db, key, env)), 3);
    } else {
      assert env.(cancelled := false) == env;
      OneStep(cfg, w, GetMissed(key), env, w, GetChecked(key), 2);
      LastSteps(cfg, w, GetChecked(key), env, w.db, Finished(FromStore(w.db, key, env)), 2);
    }
  }

  lemma AloneGet(cfg: Settings, w: World, key: string, env: Env)
    requires Indexed(w.db)
    ensures Alone(cfg, w, Get(key), env)
  {
    var pc1 := CacheStep(w.cache, GetStart(key), env).1;
    OneStep(cfg, w, GetStart(key), env, w, pc1, 3);
    if pc1.Finished? {
      Stays(cfg, w, pc1.reply, env, 3);
    } else {
      AloneGetMissed(cfg, w, key, env);
    }
  }

  /** The steps of a request with nothing between them are the whole request. */
  lemma AloneIsWhole(cfg: Settings, w: World, call: Call, env: Env)
    requires Indexed(w.db)
    ensures Alone(cfg, w, call, env)
  {
    match call
    case Register(data) => AloneRegister(cfg, w, data, env);
    case Update(user) =>
      if Refused(user, env) {
        AloneUpdateRefused(cfg, w, user, env);
      } else {
        AloneUpdateChecked(cfg, w, user.value, env);
      }
    case Delete(key) => AloneDelete(cfg, w, key, env);
    case Login(email, password) => AloneLogin(cfg, w, email, password, env);
    case Get(key) => AloneGet(cfg, w, key, env);
  }
}
