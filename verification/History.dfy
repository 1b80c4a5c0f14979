/** What every run keeps, whatever interleaves, fails or expires: the cache and every reply hold only
    versions that the store really had, documents keep their id and password, and deletion is final. */
module History {
  import opened Results
  import opened ObjectIds
  import opened Models
  import opened Database
  import opened StorageSpec
  import opened ServiceSpec
  import opened Protocol
  import Answers
  import C = Cache

  /** `u` is the reply form of some version that the store has held. */
  ghost predicate Recorded(db: Db, u: ProtoUser) {
    exists id, i ::
      id in db.versions && 0 <= i < |db.versions[id]| && ToProtoUser(db.versions[id][i]) == u
  }

  ghost predicate IsVersion(db: Db, d: Document) {
    d.id in db.versions && d in db.versions[d.id]
  }

  /** The versions of one document: it starts as the registration with the hashed password, keeps its id
      and that password, and never goes from deleted to live.  The last one is the document stored. */
  ghost predicate Lineage(
    cfg: Settings, id: ObjectId, data: CreateRequest, vs: seq<Document>, current: Document)
  {
    && |vs| > 0
    && vs[0] == NewDocument(cfg, id, data)
    && vs[|vs| - 1] == current
    && (forall i :: 0 <= i < |vs| ==> vs[i].id == id && vs[i].password == cfg.hash(data.password))
    && (forall i, j :: 0 <= i < j < |vs| && vs[i].deleted ==> vs[j].deleted)
  }

  lemma LineageGrows(
      cfg: Settings, id: ObjectId, data: CreateRequest, vs: seq<Document>, current: Document, d: Document)
    requires Lineage(cfg, id, data, vs, current)
    requires d.id == id && d.password == current.password && (current.deleted ==> d.deleted)
    ensures Lineage(cfg, id, data, vs + [d], d)
  {
  }

  ghost predicate DocumentOk(cfg: Settings, db: Db, id: ObjectId)
    requires Indexed(db) && id in db.docs
  {
    Lineage(cfg, id, db.born[id], db.versions[id], db.docs[id])
  }

  ghost predicate StoreOk(cfg: Settings, db: Db) {
    && Indexed(db)
    && Listed(db.docs.Keys, db.order)
    && (forall id {:trigger DocumentOk(cfg, db, id)} :: id in db.docs ==> DocumentOk(cfg, db, id))
  }

  ghost predicate CacheOk(w: World) {
    forall key :: key in w.cache ==> w.cache[key].userId == key && Recorded(w.db, w.cache[key])
  }

  /** The user that a state holds, to be cached or in the reply. */
  function Held(pc: Pc): Option<ProtoUser> {
    match pc
    case RegisterSaving(u) => Some(u)
    case UpdateSaving(u) => Some(u)
    case LoginSaving(u) => Some(u)
    case Finished(reply) =>
      if reply.Removed? || reply.Failed? then None else Some(reply.user)
    case _ => None
  }

  ghost predicate PcOk(db: Db, pc: Pc) {
    && (Held(pc).Some? ==> Recorded(db, Held(pc).value))
    && (pc.UpdateRead? ==> IsVersion(db, pc.base) && !pc.base.deleted)
  }

  ghost predicate WorldOk(cfg: Settings, w: World) {
    StoreOk(cfg, w.db) && CacheOk(w)
  }

  ghost predicate ProcOk(c: Core, p: Proc) {
    Belongs(p.call, p.pc) && PcOk(c.world.db, p.pc)
  }

  ghost predicate Safe(c: Core) {
    WorldOk(c.cfg, c.world) && forall who :: who in c.procs ==> ProcOk(c, c.procs[who])
  }

  /** The store only ever gains documents, and each document only gains versions. */
  ghost predicate Grows(db: Db, db': Db) {
    forall id :: id in db.versions ==> id in db'.versions && db.versions[id] <= db'.versions[id]
  }

  lemma RecordedStays(db: Db, db': Db, u: ProtoUser)
    requires Grows(db, db') && Recorded(db, u)
    ensures Recorded(db', u)
  {
    var id, i :| id in db.versions && 0 <= i < |db.versions[id]| && ToProtoUser(db.versions[id][i]) == u;
    assert db'.versions[id][i] == db.versions[id][i];
  }

  lemma PcStays(db: Db, db': Db, pc: Pc)
    requires Grows(db, db') && PcOk(db, pc)
    ensures PcOk(db', pc)
  {
    if Held(pc).Some? {
      RecordedStays(db, db', Held(pc).value);
    }
    if pc.UpdateRead? {
      var vs := db.versions[pc.base.id];
      var i :| 0 <= i < |vs| && vs[i] == pc.base;
      assert db'.versions[pc.base.id][i] == pc.base;
    }
  }

  lemma CurrentIsRecorded(cfg: Settings, db: Db, id: ObjectId)
    requires Indexed(db) && id in db.docs && DocumentOk(cfg, db, id)
    ensures Recorded(db, ToProtoUser(db.docs[id])) && IsVersion(db, db.docs[id])
  {
    var i := |db.versions[id]| - 1;
    assert ToProtoUser(db.versions[id][i]) == ToProtoUser(db.docs[id]);
  }

  lemma InsertGrows(db: Db, doc: Document, data: CreateRequest)
    requires Indexed(db) && doc.id !in db.docs
    ensures Grows(db, Insert(db, doc, data))
  {
  }

  lemma ReplaceGrows(db: Db, doc: Document)
    requires Indexed(db) && doc.id in db.docs
    ensures Grows(db, Replace(db, doc))
  {
  }

  lemma InsertListed(db: Db, doc: Document, data: CreateRequest)
    requires Listed(db.docs.Keys, db.order) && doc.id !in db.docs
    ensures var db' := Insert(db, doc, data); Listed(db'.docs.Keys, db'.order)
  {
    ListedMore(db.docs.Keys, db.order, doc.id);
    assert Insert(db, doc, data).docs.Keys == db.docs.Keys + {doc.id};
  }

  lemma InsertKeeps(cfg: Settings, db: Db, doc: Document, data: CreateRequest)
    requires StoreOk(cfg, db) && doc.id !in db.docs && doc == NewDocument(cfg, doc.id, data)
    ensures var db' := Insert(db, doc, data);
            StoreOk(cfg, db') && Grows(db, db') && Recorded(db', ToProtoUser(doc))
  {
    var db' := Insert(db, doc, data);
    InsertIndexed(db, doc, data);
    InsertGrows(db, doc, data);
    InsertListed(db, doc, data);
    forall k | k in db'.docs ensures DocumentOk(cfg, db', k) {
      if k == doc.id {
        assert Lineage(cfg, k, data, [doc], doc);
      } else {
        assert DocumentOk(cfg, db, k);
      }
    }
    CurrentIsRecorded(cfg, db', doc.id);
  }

  lemma ReplaceKeeps(cfg: Settings, db: Db, doc: Document)
    requires StoreOk(cfg, db) && doc.id in db.docs
    requires doc.password == db.docs[doc.id].password && (db.docs[doc.id].deleted ==> doc.deleted)
    ensures StoreOk(cfg, Replace(db, doc)) && Grows(db, Replace(db, doc))
    ensures Recorded(Replace(db, doc), ToProtoUser(doc))
  {
    var db' := Replace(db, doc);
    ReplaceIndexed(db, doc);
    ReplaceGrows(db, doc);
    forall k | k in db'.docs ensures DocumentOk(cfg, db', k) {
      assert DocumentOk(cfg, db, k);
      if k == doc.id {
        LineageGrows(cfg, k, db.born[k], db.versions[k], db.docs[k], doc);
      }
    }
    CurrentIsRecorded(cfg, db', doc.id);
  }

  lemma FoundIsLive(db: Db, look: LookUp, value: string, env: Env)
    requires Indexed(db) && GetByField(db, look, value, env).Ok?
    ensures var d := GetByField(db, look, value, env).value; d.id in db.docs && db.docs[d.id] == d && !d.deleted
  {
    if look.By? {
      FindLiveByFinds(db, look.field, value);
    }
  }

  lemma LookUpKeeps(cfg: Settings, db: Db, look: LookUp, value: string, env: Env)
    requires StoreOk(cfg, db) && GetByField(db, look, value, env).Ok?
    ensures var d := GetByField(db, look, value, env).value;
            IsVersion(db, d) && !d.deleted && Recorded(db, ToProtoUser(d))
    ensures look.ById? ==> Some(GetByField(db, look, value, env).value.id) == FromHex(value)
  {
    FoundIsLive(db, look, value, env);
    var d := GetByField(db, look, value, env).value;
    assert DocumentOk(cfg, db, d.id);
    CurrentIsRecorded(cfg, db, d.id);
  }

  ghost predicate StepOk(cfg: Settings, db: Db, call: Call, db': Db, pc': Pc) {
    Grows(db, db') && StoreOk(cfg, db') && Belongs(call, pc') && PcOk(db', pc')
  }

  lemma RegisterStepKeeps(cfg: Settings, db: Db, call: Call, data: CreateRequest, env: Env)
    requires StoreOk(cfg, db) && Belongs(call, RegisterChecked(data))
    ensures var r := StoreStep(cfg, db, RegisterChecked(data), env); StepOk(cfg, db, call, r.0, r.1)
  {
    if env.writeOk && env.newId !in db.docs {
      InsertKeeps(cfg, db, NewDocument(cfg, env.newId, data), data);
    }
  }

  lemma UpdateReadKeeps(cfg: Settings, db: Db, call: Call, change: ProtoUser, env: Env)
    requires StoreOk(cfg, db) && Belongs(call, UpdateChecked(change))
    ensures var r := StoreStep(cfg, db, UpdateChecked(change), env); StepOk(cfg, db, call, r.0, r.1)
  {
    if GetByField(db, ById, change.userId, env.(cancelled := false)).Ok? {
      LookUpKeeps(cfg, db, ById, change.userId, env.(cancelled := false));
    }
  }

  lemma WriteMergedKeeps(cfg: Settings, db: Db, base: Document, change: ProtoUser, writeOk: bool)
    requires StoreOk(cfg, db) && IsVersion(db, base)
    ensures var (db', r) := WriteMerged(db, base, change, writeOk);
            Grows(db, db') && StoreOk(cfg, db')
            && (r.Ok? ==> Recorded(db', r.value) && FromHex(r.value.userId) == Some(base.id))
  {
    if writeOk && Live(db, base.id) {
      assert DocumentOk(cfg, db, base.id);
      ReplaceKeeps(cfg, db, Merge(base, change));
    }
  }

  lemma UpdateWriteKeeps(cfg: Settings, db: Db, call: Call, base: Document, change: ProtoUser, env: Env)
    requires StoreOk(cfg, db) && Belongs(call, UpdateRead(base, change)) && IsVersion(db, base)
    ensures var r := StoreStep(cfg, db, UpdateRead(base, change), env); StepOk(cfg, db, call, r.0, r.1)
  {
    WriteMergedKeeps(cfg, db, base, change, env.writeOk);
  }

  lemma WriteDeletedKeeps(cfg: Settings, db: Db, id: ObjectId, writeOk: bool)
    requires StoreOk(cfg, db)
    ensures var db' := WriteDeleted(cfg, db, id, writeOk).0; Grows(db, db') && StoreOk(cfg, db')
  {
    if id in db.docs {
      ReplaceKeeps(cfg, db, db.docs[id].(deleted := true));
    }
  }

  lemma DeleteStepKeeps(cfg: Settings, db: Db, call: Call, key: string, env: Env)
    requires StoreOk(cfg, db) && Belongs(call, DeleteRead(key))
    ensures var r := StoreStep(cfg, db, DeleteRead(key), env); StepOk(cfg, db, call, r.0, r.1)
  {
    WriteDeletedKeeps(cfg, db, FromHex(key).value, env.writeOk);
  }

  lemma LoginStepKeeps(cfg: Settings, db: Db, call: Call, email: string, password: string, env: Env)
    requires StoreOk(cfg, db) && Belongs(call, LoginChecked(email, password))
    ensures var r := StoreStep(cfg, db, LoginChecked(email, password), env); StepOk(cfg, db, call, r.0, r.1)
  {
    if GetByField(db, By(Email), email, env.(cancelled := false)).Ok? {
      LookUpKeeps(cfg, db, By(Email), email, env.(cancelled := false));
    }
  }

  lemma GetStepKeeps(cfg: Settings, db: Db, call: Call, key: string, env: Env)
    requires StoreOk(cfg, db) && Belongs(call, GetChecked(key))
    ensures var r := StoreStep(cfg, db, GetChecked(key), env); StepOk(cfg, db, call, r.0, r.1)
  {
    if GetByField(db, ById, key, env.(cancelled := false)).Ok? {
      LookUpKeeps(cfg, db, ById, key, env.(cancelled := false));
    }
  }

  /** A store step keeps the store in order, adds to its history, and leaves the request in order. */
  lemma StoreStepKeeps(cfg: Settings, db: Db, call: Call, pc: Pc, env: Env)
    requires StoreOk(cfg, db) && OnStore(pc) && Belongs(call, pc) && PcOk(db, pc)
    ensures var r := StoreStep(cfg, db, pc, env); StepOk(cfg, db, call, r.0, r.1)
  {
    match pc {
      case RegisterChecked(data) => RegisterStepKeeps(cfg, db, call, data, env);
      case UpdateChecked(change) => UpdateReadKeeps(cfg, db, call, change, env);
      case UpdateRead(base, change) => UpdateWriteKeeps(cfg, db, call, base, change, env);
      case DeleteRead(key) => DeleteStepKeeps(cfg, db, call, key, env);
      case LoginChecked(email, password) => LoginStepKeeps(cfg, db, call, email, password, env);
      case GetChecked(key) => GetStepKeeps(cfg, db, call, key, env);
      case _ => CheckStepKeeps(cfg, db, call, pc, env);
    }
  }

  lemma CheckStepKeeps(cfg: Settings, db: Db, call: Call, pc: Pc, env: Env)
    requires StoreOk(cfg, db) && Belongs(call, pc)
    requires pc.RegisterStart? || pc.UpdateStart? || pc.DeleteStart? || pc.LoginStart? || pc.GetMissed?
    ensures var r := StoreStep(cfg, db, pc, env); r.0 == db && StepOk(cfg, db, call, r.0, r.1)
  {
  }

  lemma CacheStays(w: World, db: Db)
    requires CacheOk(w) && Grows(w.db, db)
    ensures CacheOk(World(db, w.cache))
  {
    forall key | key in w.cache ensures w.cache[key].userId == key && Recorded(db, w.cache[key]) {
      RecordedStays(w.db, db, w.cache[key]);
    }
  }

  lemma SavedKeeps(w: World, user: ProtoUser, o: C.Outcome)
    requires CacheOk(w) && Recorded(w.db, user)
    ensures CacheOk(World(w.db, C.Stored(w.cache, user, o)))
  {
  }

  lemma SavingStepKeeps(w: World, call: Call, pc: Pc, env: Env)
    requires CacheOk(w) && Belongs(call, pc) && PcOk(w.db, pc)
    requires pc.RegisterSaving? || pc.UpdateSaving? || pc.LoginSaving?
    ensures var (cache, pc') := CacheStep(w.cache, pc, env);
            CacheOk(World(w.db, cache)) && Belongs(call, pc') && PcOk(w.db, pc')
  {
    SavedKeeps(w, pc.user, env.cache);
  }

  lemma CacheHitKeeps(w: World, key: string)
    requires CacheOk(w) && key in w.cache
    ensures Belongs(Get(key), Finished(Found(w.cache[key]))) && PcOk(w.db, Finished(Found(w.cache[key])))
  {
  }

  lemma CacheStepKeeps(w: World, call: Call, pc: Pc, env: Env)
    requires CacheOk(w) && !OnStore(pc) && Belongs(call, pc) && PcOk(w.db, pc)
    ensures var (cache, pc') := CacheStep(w.cache, pc, env);
            CacheOk(World(w.db, cache)) && Belongs(call, pc') && PcOk(w.db, pc')
  {
    match pc {
      case DeleteRemoving(key) => assert CacheOk(World(w.db, C.Removed(w.cache, key, env.cache)));
      case GetStart(key) =>
        if env.cacheReadOk && key in w.cache {
          CacheHitKeeps(w, key);
        }
      case Finished(_) =>
      case _ => SavingStepKeeps(w, call, pc, env);
    }
  }

  lemma StepKeeps(cfg: Settings, w: World, call: Call, pc: Pc, env: Env)
    requires WorldOk(cfg, w) && Belongs(call, pc) && PcOk(w.db, pc)
    ensures var (w', pc') := Exec(cfg, w, pc, env);
            Grows(w.db, w'.db) && WorldOk(cfg, w') && Belongs(call, pc') && PcOk(w'.db, pc')
  {
    if OnStore(pc) {
      StoreStepKeeps(cfg, w.db, call, pc, env);
      CacheStays(w, StoreStep(cfg, w.db, pc, env).0);
    } else {
      CacheStepKeeps(w, call, pc, env);
    }
  }

  lemma EventKeeps(c: Core, e: Event)
    requires Safe(c) && Enabled(c, e)
    ensures Safe(Next(c, e)) && Grows(c.world.db, Next(c, e).world.db)
  {
    var c' := Next(c, e);
    if e.Act? {
      var p := c.procs[e.who];
      StepKeeps(c.cfg, c.world, p.call, p.pc, e.env);
    }
    forall who | who in c'.procs ensures ProcOk(c', c'.procs[who]) {
      if who in c.procs && c'.procs[who] == c.procs[who] {
        PcStays(c.world.db, c'.world.db, c.procs[who].pc);
      }
    }
  }

  lemma {:induction false} RunKeeps(c: Core, events: seq<Event>)
    requires Safe(c) && Valid(c, events)
    ensures Safe(Run(c, events)) && Grows(c.world.db, Run(c, events).world.db) && Run(c, events).cfg == c.cfg
    decreases |events|
  {
    if events != [] {
      EventKeeps(c, events[0]);
      RunKeeps(Next(c, events[0]), events[1..]);
    }
  }

  lemma InitialIsSafe(cfg: Settings)
    ensures Safe(Initial(cfg))
  {
  }

  // ---- The theorems ----

  /** The user carries, field by field, some version that the store has held. */
  ghost predicate ShowsVersion(db: Db, u: ProtoUser) {
    exists id, i :: id in db.versions && 0 <= i < |db.versions[id]| && Shows(u, db.versions[id][i])
  }

  lemma RecordedShows(db: Db, u: ProtoUser)
    requires Recorded(db, u)
    ensures ShowsVersion(db, u)
  {
    var id, i :| id in db.versions && 0 <= i < |db.versions[id]| && ToProtoUser(db.versions[id][i]) == u;
    ReplyFormShows(u, db.versions[id][i]);
  }

  /** In every state of every run, each cache entry is under its own user's id and is a version the store
      has held, and so is every user that a reply carries; the reply to a `GetById` is of the id asked. */
  lemma HistorySafety(cfg: Settings, events: seq<Event>)
    requires Valid(Initial(cfg), events)
    ensures var c := Run(Initial(cfg), events);
            && (forall key :: key in c.world.cache ==>
                  c.world.cache[key].userId == key && ShowsVersion(c.world.db, c.world.cache[key]))
            && (forall who :: who in c.procs && Held(c.procs[who].pc).Some? ==>
                  ShowsVersion(c.world.db, Held(c.procs[who].pc).value))
            && (forall who :: who in c.procs && c.procs[who].pc.Finished? && c.procs[who].pc.reply.Found? ==>
                  && c.procs[who].call.Get?
                  && FromHex(c.procs[who].call.key) == FromHex(c.procs[who].pc.reply.user.userId))
  {
    InitialIsSafe(cfg);
    RunKeeps(Initial(cfg), events);
    var c := Run(Initial(cfg), events);
    forall key | key in c.world.cache ensures ShowsVersion(c.world.db, c.world.cache[key]) {
      RecordedShows(c.world.db, c.world.cache[key]);
    }
    forall who | who in c.procs
      ensures ProcOk(c, c.procs[who])
      ensures Held(c.procs[who].pc).Some? ==> ShowsVersion(c.world.db, Held(c.procs[who].pc).value)
    {
      assert ProcOk(c, c.procs[who]);
      if Held(c.procs[who].pc).Some? {
        RecordedShows(c.world.db, Held(c.procs[who].pc).value);
      }
    }
  }

  lemma DeletedStays(cfg: Settings, before: Db, after: Db, id: ObjectId)
    requires StoreOk(cfg, before) && StoreOk(cfg, after) && Grows(before, after)
    requires id in before.docs && before.docs[id].deleted
    ensures id in after.docs && after.docs[id].deleted
  {
    assert DocumentOk(cfg, before, id) && DocumentOk(cfg, after, id);
    var vs, more := before.versions[id], after.versions[id];
    assert more[|vs| - 1] == vs[|vs| - 1];
    assert |vs| == |more| || more[|more| - 1].deleted;
  }

  /** No run takes a document from deleted back to live, or removes it. */
  lemma DeletionIsFinal(c: Core, events: seq<Event>, id: ObjectId)
    requires Safe(c) && Valid(c, events) && id in c.world.db.docs && c.world.db.docs[id].deleted
    ensures var db := Run(c, events).world.db; id in db.docs && db.docs[id].deleted
  {
    RunKeeps(c, events);
    DeletedStays(c.cfg, c.world.db, Run(c, events).world.db, id);
  }

  /** Every document keeps the id it is stored under and the hash of the password it registered with; it
      began as its registration, and the listing names it once. */
  lemma IdentityIsKept(cfg: Settings, events: seq<Event>, id: ObjectId)
    requires Valid(Initial(cfg), events) && id in Run(Initial(cfg), events).world.db.docs
    ensures var db := Run(Initial(cfg), events).world.db;
            && id in db.born && id in db.versions
            && db.docs[id].id == id && db.docs[id].password == cfg.hash(db.born[id].password)
            && db.versions[id] != [] && CarriesRegistration(cfg, db.versions[id][0], db.born[id])
            && Listed(db.docs.Keys, db.order)
  {
    InitialIsSafe(cfg);
    RunKeeps(Initial(cfg), events);
    var db := Run(Initial(cfg), events).world.db;
    assert DocumentOk(cfg, db, id);
    NewDocumentExactly(cfg, id, db.born[id], db.versions[id][0]);
  }

  predicate OnlyLiveWith(db: Db, id: ObjectId, email: string) {
    && Live(db, id) && db.docs[id].email == email
    && forall other :: other in db.docs && Live(db, other) && db.docs[other].email == email ==> other == id
  }

  /** After any run, the live user who alone has an email can log in with it by exactly the passwords that
      hash as the one they registered with, and gets the document now stored. */
  lemma LoginExactly(cfg: Settings, events: seq<Event>, id: ObjectId, email: string, password: string, env: Env)
    requires Valid(Initial(cfg), events) && OnlyLiveWith(Run(Initial(cfg), events).world.db, id, email)
    requires !env.cancelled && env.readOk
    ensures var db := Run(Initial(cfg), events).world.db;
            var r := StorageSpec.LoginUser(cfg, db, email, password, env);
            && id in db.born
            && (r.Ok? <==> cfg.hash(password) == cfg.hash(db.born[id].password) && env.tokenOk)
            && (r.Ok? ==> Shows(r.value, db.docs[id]) && !r.value.deleted)
            && (r.Err? ==> r.error == if cfg.hash(password) != cfg.hash(db.born[id].password) then WrongPassword
                                      else TokenError)
  {
    IdentityIsKept(cfg, events, id);
    var db := Run(Initial(cfg), events).world.db;
    FindLiveByFinds(db, Email, email);
    ReplyFormShows(ToProtoUser(db.docs[id]), db.docs[id]);
  }

  /** After any run, the live user who alone has a username is who a lookup by it gives. */
  lemma UsernameExactly(cfg: Settings, events: seq<Event>, id: ObjectId, username: string, env: Env)
    requires Valid(Initial(cfg), events) && !env.cancelled && env.readOk
    requires var db := Run(Initial(cfg), events).world.db;
             && id in db.docs && !db.docs[id].deleted && db.docs[id].username == username
             && forall other :: other in db.docs && !db.docs[other].deleted && db.docs[other].username == username
                  ==> other == id
    ensures var db := Run(Initial(cfg), events).world.db;
            GetByField(db, By(Username), username, env) == Ok(db.docs[id])
  {
    IdentityIsKept(cfg, events, id);
    Answers.OnlyHolderAnswer(Run(Initial(cfg), events).world.db, id, username, env);
  }

  // ---- The deletion's update document ----

  /** A deletion by id succeeds in the store exactly when its update document carries an operator and the
      id decodes, is stored, and both calls are answered.  It then leaves the document deleted, and
      otherwise changes nothing. */
  lemma DeleteExactly(cfg: Settings, db: Db, key: string, env: Env)
    requires Indexed(db)
    ensures var (db', r) := StorageSpec.DeleteUserById(cfg, db, key, env);
            && (r.None? <==> cfg.setOperator && FromHex(key).Some? && FromHex(key).value in db.docs
                             && env.readOk && env.writeOk)
            && (r.None? ==> db'.docs == db.docs[FromHex(key).value := db.docs[FromHex(key).value].(deleted := true)])
            && (r.Some? ==> db' == db)
  {
    if FromHex(key).Some? && FromHex(key).value in db.docs {
      var id := FromHex(key).value;
      assert db.docs[id] == db.docs[id].(deleted := true)
             ==> db.docs == db.docs[id := db.docs[id].(deleted := true)];
    }
  }

  ghost predicate DeletedAsBorn(db: Db)
    requires Indexed(db)
  {
    forall id :: id in db.docs ==> db.docs[id].deleted == db.born[id].deleted
  }

  lemma StoreStepNeverDeletes(cfg: Settings, db: Db, pc: Pc, env: Env)
    requires StoreOk(cfg, db) && OnStore(pc) && PcOk(db, pc) && DeletedAsBorn(db) && !cfg.setOperator
    requires Indexed(StoreStep(cfg, db, pc, env).0)
    ensures DeletedAsBorn(StoreStep(cfg, db, pc, env).0)
  {
  }

  /** With the update document as the code has it, no run ever deletes a user: each document's mark is the
      one it was registered with. */
  lemma {:induction false} AsWrittenNothingIsDeleted(c: Core, events: seq<Event>)
    requires Safe(c) && !c.cfg.setOperator && DeletedAsBorn(c.world.db) && Valid(c, events)
    ensures DeletedAsBorn(Run(c, events).world.db)
    decreases |events|
  {
    if events != [] {
      var e := events[0];
      EventKeeps(c, e);
      if e.Act? && OnStore(c.procs[e.who].pc) {
        assert ProcOk(c, c.procs[e.who]);
        StoreStepNeverDeletes(c.cfg, c.world.db, c.procs[e.who].pc, e.env);
      }
      AsWrittenNothingIsDeleted(Next(c, e), events[1..]);
    }
  }
}
