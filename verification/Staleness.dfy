/** When a right cache entry can become wrong although its document does not change. */
module Staleness {
  import Results
  import opened ObjectIds
  import opened Database
  import opened StorageSpec
  import ServiceSpec
  import opened Protocol
  import opened History
  import opened Coherence
  import R = Resurrection
  import C = Cache

  /** The request holds a cache write for the id of a user that the store would not answer now. */
  predicate HoldsStale(db: Db, pc: Pc, id: ObjectId) {
    R.Saving(pc) && pc.user.userId == Hex(id) && LookUpKey(db, Hex(id)) != Results.Some(pc.user)
  }

  ghost predicate StalePending(c: Core, id: ObjectId) {
    exists who :: who in c.procs && HoldsStale(c.world.db, c.procs[who].pc, id)
  }

  ghost predicate Stored(db: Db, id: ObjectId) {
    id in db.docs && id in db.versions
  }

  lemma SameVersionsSameAnswer(cfg: Settings, db: Db, db': Db, id: ObjectId)
    requires StoreOk(cfg, db) && StoreOk(cfg, db') && Stored(db, id) && Stored(db', id)
    requires db'.versions[id] == db.versions[id]
    ensures LookUpKey(db', Hex(id)) == LookUpKey(db, Hex(id))
  {
    assert DocumentOk(cfg, db, id) && DocumentOk(cfg, db', id);
  }

  /** A store step that leaves a document's versions comes to hold a cache write for it only with the user
      the store has. */
  lemma NewSavingIsFresh(cfg: Settings, db: Db, pc: Pc, env: Env, id: ObjectId)
    requires StoreOk(cfg, db) && OnStore(pc) && PcOk(db, pc) && Stored(db, id)
    requires var db' := StoreStep(cfg, db, pc, env).0; Stored(db', id) && db'.versions[id] == db.versions[id]
    ensures !HoldsStale(db, StoreStep(cfg, db, pc, env).1, id)
  {
    if pc.LoginChecked? && R.Saving(StoreStep(cfg, db, pc, env).1) {
      FoundIsLive(db, By(Email), pc.email, env.(cancelled := false));
    } else if pc.UpdateRead? && pc.base.id == id {
      assert DocumentOk(cfg, db, id);
    }
  }

  /** A Redis call of a request that holds nothing stale. */
  lemma CacheStepStaysFresh(w: ServiceSpec.World, pc: Pc, env: Env, id: ObjectId)
    requires !OnStore(pc) && CoherentAt(w, Hex(id)) && !HoldsStale(w.db, pc, id)
    ensures var (cache, pc') := CacheStep(w.cache, pc, env);
            CoherentAt(ServiceSpec.World(w.db, cache), Hex(id)) && !HoldsStale(w.db, pc', id)
  {
    if R.Saving(pc) {
      assert pc.user.userId == Hex(id) ==> LookUpKey(w.db, Hex(id)) == Results.Some(pc.user);
    }
  }

  /** One step of a request that holds nothing stale, when the store's answer stays. */
  lemma StepStaysFresh(c: Core, who: Caller, env: Env, id: ObjectId)
    requires Safe(c) && Enabled(c, Act(who, env)) && Stored(c.world.db, id)
    requires CoherentAt(c.world, Hex(id)) && !HoldsStale(c.world.db, c.procs[who].pc, id)
    requires var db' := Next(c, Act(who, env)).world.db;
             && Stored(db', id) && db'.versions[id] == c.world.db.versions[id]
             && LookUpKey(db', Hex(id)) == LookUpKey(c.world.db, Hex(id))
    ensures var c' := Next(c, Act(who, env));
            CoherentAt(c'.world, Hex(id)) && !HoldsStale(c'.world.db, c'.procs[who].pc, id)
  {
    var pc := c.procs[who].pc;
    assert ProcOk(c, c.procs[who]);
    if OnStore(pc) {
      NewSavingIsFresh(c.cfg, c.world.db, pc, env, id);
    } else {
      CacheStepStaysFresh(c.world, pc, env, id);
    }
  }

  /** Requests that are as they were, or fresh of themselves. */
  lemma RestStaysFresh(c: Core, c': Core, id: ObjectId)
    requires !StalePending(c, id) && LookUpKey(c'.world.db, Hex(id)) == LookUpKey(c.world.db, Hex(id))
    requires forall who :: who in c'.procs ==>
               (who in c.procs && c'.procs[who] == c.procs[who]) || !HoldsStale(c'.world.db, c'.procs[who].pc, id)
    ensures !StalePending(c', id)
  {
    forall who | who in c'.procs ensures !HoldsStale(c'.world.db, c'.procs[who].pc, id) {
      assert who in c.procs ==> !HoldsStale(c.world.db, c.procs[who].pc, id);
    }
  }

  lemma StaysFresh(c: Core, e: Event, id: ObjectId)
    requires Safe(c) && Enabled(c, e) && Stored(c.world.db, id)
    requires CoherentAt(c.world, Hex(id)) && !StalePending(c, id)
    requires var db' := Next(c, e).world.db;
             && Stored(db', id) && db'.versions[id] == c.world.db.versions[id]
             && LookUpKey(db', Hex(id)) == LookUpKey(c.world.db, Hex(id))
    ensures CoherentAt(Next(c, e).world, Hex(id)) && !StalePending(Next(c, e), id)
  {
    var c' := Next(c, e);
    if e.Act? {
      StepStaysFresh(c, e.who, e.env, id);
    }
    RestStaysFresh(c, c', id);
  }

  /** With nothing stale held, a right entry stays right in every continuation that leaves the document's
      versions as they are. */
  lemma {:induction false} NothingStaleComes(c: Core, events: seq<Event>, id: ObjectId)
    requires Safe(c) && Stored(c.world.db, id) && CoherentAt(c.world, Hex(id)) && !StalePending(c, id)
    requires Valid(c, events)
    requires var db := Run(c, events).world.db; Stored(db, id) && db.versions[id] == c.world.db.versions[id]
    ensures CoherentAt(Run(c, events).world, Hex(id))
    decreases |events|
  {
    if events != [] {
      var c' := Next(c, events[0]);
      EventKeeps(c, events[0]);
      RunKeeps(c', events[1..]);
      VersionsBetween(c.world.db, c'.world.db, Run(c, events).world.db, id);
      SameVersionsSameAnswer(c.cfg, c.world.db, c'.world.db, id);
      StaysFresh(c, events[0], id);
      NothingStaleComes(c', events[1..], id);
    }
  }

  lemma VersionsBetween(a: Db, b: Db, c: Db, id: ObjectId)
    requires Indexed(b) && Grows(a, b) && Grows(b, c) && id in a.versions && id in c.versions
    requires a.versions[id] == c.versions[id]
    ensures Stored(b, id) && b.versions[id] == a.versions[id]
  {
    assert a.versions[id] <= b.versions[id] <= c.versions[id];
  }

  ghost predicate CanGoStale(c: Core, id: ObjectId)
    requires Indexed(c.world.db) && Stored(c.world.db, id)
  {
    exists events :: GoesStale(c, events, id)
  }

  /** The document never changes, and at the end its entry is wrong. */
  ghost predicate GoesStale(c: Core, events: seq<Event>, id: ObjectId)
    requires Indexed(c.world.db) && Stored(c.world.db, id)
  {
    && Valid(c, events)
    && Stored(Run(c, events).world.db, id)
    && Run(c, events).world.db.versions[id] == c.world.db.versions[id]
    && !CoherentAt(Run(c, events).world, Hex(id))
  }

  /** A stale write that takes effect leaves the entry wrong. */
  lemma StaleLands(c: Core, who: Caller, id: ObjectId)
    requires Indexed(c.world.db) && Stored(c.world.db, id)
    requires who in c.procs && HoldsStale(c.world.db, c.procs[who].pc, id)
    ensures CanGoStale(c, id)
  {
    var e := Act(who, Env(false, true, true, 0, true, true, C.Acknowledged));
    OneEvent(c, e);
    var c' := Next(c, e);
    assert c'.world == ServiceSpec.World(c.world.db, c.world.cache[Hex(id) := c.procs[who].pc.user]);
    assert GoesStale(c, [e], id);
  }

  /** A right entry can become wrong with its document unchanged exactly when some request in flight holds a
      cache write of another user state: a login or an update that saw the store before the last change. */
  lemma StalenessExactly(c: Core, id: ObjectId)
    requires Safe(c) && Stored(c.world.db, id) && CoherentAt(c.world, Hex(id))
    ensures CanGoStale(c, id) <==> StalePending(c, id)
  {
    if StalePending(c, id) {
      var who :| who in c.procs && HoldsStale(c.world.db, c.procs[who].pc, id);
      StaleLands(c, who, id);
    } else if CanGoStale(c, id) {
      var events :| GoesStale(c, events, id);
      NothingStaleComes(c, events, id);
    }
  }
}
